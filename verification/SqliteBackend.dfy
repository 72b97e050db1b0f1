/** The SQLite backend: tables keyed by uid, queue order held in an integer position column,
    every call one transaction. `fault` stands for anything that makes the transaction roll
    back (serialisation, I/O, locking). */
module SqliteBackend {
  import opened Jobs
  import opened State
  import opened Disk
  import Contract
  import opened Tables
  import opened MemoryBackend

  datatype Cell = Cell(position: int, row: Row)

  datatype FailedCell = FailedCell(meta: Meta, payload: Option<Payload>)

  /** `rows` is the queue table read in ascending position order: it has exactly the stored
      rows, each under its own uid, at strictly increasing positions. */
  ghost predicate Stored(q: map<Uid, Cell>, rows: seq<Row>) {
    && (forall r :: r in rows ==> r.uid in q && q[r.uid].row == r)
    && (forall u :: u in q ==> q[u].row in rows && q[u].row.uid == u)
    && Ascending(q, rows)
  }

  ghost predicate Ascending(q: map<Uid, Cell>, rows: seq<Row>) {
    forall i, j :: 0 <= i < j < |rows| ==> PositionOf(q, rows[i]) < PositionOf(q, rows[j])
  }

  function PositionOf(q: map<Uid, Cell>, row: Row): int {
    if row.uid in q then q[row.uid].position else 0
  }

  lemma StoredUids(q: map<Uid, Cell>, rows: seq<Row>)
    requires Stored(q, rows)
    ensures DistinctUids(rows) && q.Keys == UidSet(rows)
  {
    forall i, j | 0 <= i < j < |rows| ensures rows[i].uid != rows[j].uid {
      assert PositionOf(q, rows[i]) < PositionOf(q, rows[j]);
    }
    forall u | u in q ensures u in UidSet(rows) {
      assert q[u].row in rows;
    }
  }

  /** A table has only one reading in position order. */
  lemma StoredUnique(q: map<Uid, Cell>, a: seq<Row>, b: seq<Row>)
    requires Stored(q, a) && Stored(q, b)
    ensures a == b
  {
    assert forall r :: r in a <==> r in b;
    SameAscending(q, a, b);
  }

  lemma {:induction false} SameAscending(q: map<Uid, Cell>, a: seq<Row>, b: seq<Row>)
    requires Ascending(q, a) && Ascending(q, b) && forall r :: r in a <==> r in b
    ensures a == b
    decreases |a|
  {
    SomeMember(a);
    SomeMember(b);
    if a != [] && b != [] {
      SameLowest(q, a, b);
      TailMembers(q, a);
      TailMembers(q, b);
      SameAscending(q, a[1..], b[1..]);
      assert a == [a[0]] + a[1..] && b == [b[0]] + b[1..];
    }
  }

  lemma SameLowest(q: map<Uid, Cell>, a: seq<Row>, b: seq<Row>)
    requires Ascending(q, a) && Ascending(q, b) && a != [] && b != [] && forall r :: r in a <==> r in b
    ensures a[0] == b[0]
  {
    assert a[0] in b && b[0] in a;
    var j :| 0 <= j < |b| && b[j] == a[0];
    var i :| 0 <= i < |a| && a[i] == b[0];
    assert PositionOf(q, a[0]) <= PositionOf(q, a[i]) && PositionOf(q, b[0]) <= PositionOf(q, b[j]);
  }

  lemma SomeMember(rows: seq<Row>)
    ensures rows == [] || exists r :: r in rows
  {
    if rows != [] {
      assert rows[0] in rows;
    }
  }

  lemma TailMembers(q: map<Uid, Cell>, rows: seq<Row>)
    requires Ascending(q, rows) && rows != []
    ensures Ascending(q, rows[1..]) && forall r :: r in rows[1..] <==> r in rows && r != rows[0]
  {
    assert rows == [rows[0]] + rows[1..];
    forall i | 0 <= i < |rows[1..]| ensures rows[1..][i] != rows[0] {
      assert PositionOf(q, rows[0]) < PositionOf(q, rows[i + 1]);
    }
  }

  lemma HeadIsLowest(q: map<Uid, Cell>, rows: seq<Row>, r: Row)
    requires Ascending(q, rows) && rows != [] && r in rows[1..]
    ensures PositionOf(q, rows[0]) < PositionOf(q, r)
  {
    var k :| 0 <= k < |rows[1..]| && rows[1..][k] == r;
    assert rows[k + 1] == r;
  }

  lemma AscendingWithout(q: map<Uid, Cell>, rows: seq<Row>, gone: set<Uid>)
    requires Ascending(q, rows)
    ensures Ascending(q, Without(rows, gone))
  {
    if rows != [] {
      assert Ascending(q, rows[1..]);
      AscendingWithout(q, rows[1..], gone);
      var rest := Without(rows[1..], gone);
      forall i | 0 <= i < |rest| ensures PositionOf(q, rows[0]) < PositionOf(q, rest[i]) {
        WithoutUids(rows[1..], gone);
        assert rest[i] in rest;
        HeadIsLowest(q, rows, rest[i]);
      }
    }
  }

  /** Deleting rows keeps the order of the others. */
  lemma StoredDelete(q: map<Uid, Cell>, rows: seq<Row>, gone: set<Uid>)
    requires Stored(q, rows)
    ensures Stored(q - gone, Without(rows, gone))
  {
    AscendingWithout(q, rows, gone);
    WithoutUids(rows, gone);
    var rest := Without(rows, gone);
    forall i, j | 0 <= i < j < |rest| ensures PositionOf(q - gone, rest[i]) < PositionOf(q - gone, rest[j]) {
      assert rest[i] in rest && rest[j] in rest;
      assert PositionOf(q, rest[i]) < PositionOf(q, rest[j]);
    }
  }

  lemma AscendingJoin(q: map<Uid, Cell>, a: seq<Row>, b: seq<Row>)
    requires Ascending(q, a) && Ascending(q, b)
    requires forall r, t :: r in a && t in b ==> PositionOf(q, r) < PositionOf(q, t)
    ensures Ascending(q, a + b)
  {
    var all := a + b;
    forall i, j | 0 <= i < j < |all| ensures PositionOf(q, all[i]) < PositionOf(q, all[j]) {
      if i < |a| <= j {
        assert all[i] in a && all[j] in b;
      } else if i < |a| {
        assert all[i] == a[i] && all[j] == a[j];
      } else {
        assert all[i] == b[i - |a|] && all[j] == b[j - |a|];
      }
    }
  }

  /** `q` is `q0` with the rows of `batch` added at consecutive positions from `base`. */
  ghost predicate Inserted(q0: map<Uid, Cell>, q: map<Uid, Cell>, batch: seq<Row>, base: int) {
    && (forall u :: u in q ==> u in q0 || exists k :: 0 <= k < |batch| && batch[k].uid == u)
    && (forall u :: u in q0 ==> u in q && q[u] == q0[u])
    && (forall k :: 0 <= k < |batch| ==> batch[k].uid in q && q[batch[k].uid] == Cell(base + k, batch[k]))
  }

  /** A batch of new rows whose positions are all below, or all above, the stored ones goes to
      the front, or the back, in its own order. */
  lemma StoredBatch(q0: map<Uid, Cell>, rows: seq<Row>, q: map<Uid, Cell>, batch: seq<Row>, base: int, front: bool)
    requires Stored(q0, rows) && Inserted(q0, q, batch, base)
    requires front ==> forall u :: u in q0 ==> base + |batch| <= q0[u].position
    requires !front ==> forall u :: u in q0 ==> q0[u].position < base
    ensures Stored(q, if front then batch + rows else rows + batch)
  {
    OldRowsKeep(q0, rows, q, batch, base);
    NewRowsAscend(q0, q, batch, base);
    forall u | u in q ensures (q[u].row in rows || q[u].row in batch) && q[u].row.uid == u {
      if u !in q0 {
        var k :| 0 <= k < |batch| && batch[k].uid == u;
      }
    }
    if front {
      StoredJoin(q, batch, rows);
    } else {
      StoredJoin(q, rows, batch);
    }
  }

  lemma StoredJoin(q: map<Uid, Cell>, a: seq<Row>, b: seq<Row>)
    requires Ascending(q, a) && Ascending(q, b)
    requires forall r, t :: r in a && t in b ==> PositionOf(q, r) < PositionOf(q, t)
    requires forall r :: r in a || r in b ==> r.uid in q && q[r.uid].row == r
    requires forall u :: u in q ==> (q[u].row in a || q[u].row in b) && q[u].row.uid == u
    ensures Stored(q, a + b)
  {
    AscendingJoin(q, a, b);
    assert forall r :: r in a + b <==> r in a || r in b;
  }

  lemma OldRowsKeep(q0: map<Uid, Cell>, rows: seq<Row>, q: map<Uid, Cell>, batch: seq<Row>, base: int)
    requires Stored(q0, rows) && Inserted(q0, q, batch, base)
    ensures Ascending(q, rows)
    ensures forall r :: r in rows ==> r.uid in q && q[r.uid].row == r && PositionOf(q, r) == q0[r.uid].position
  {
    forall i, j | 0 <= i < j < |rows| ensures PositionOf(q, rows[i]) < PositionOf(q, rows[j]) {
      assert rows[i] in rows && rows[j] in rows && PositionOf(q0, rows[i]) < PositionOf(q0, rows[j]);
    }
  }

  lemma NewRowsAscend(q0: map<Uid, Cell>, q: map<Uid, Cell>, batch: seq<Row>, base: int)
    requires Inserted(q0, q, batch, base)
    ensures Ascending(q, batch)
    ensures forall r :: r in batch ==> r.uid in q && q[r.uid].row == r && base <= PositionOf(q, r) < base + |batch|
  {
    forall r | r in batch ensures r.uid in q && q[r.uid].row == r && base <= PositionOf(q, r) < base + |batch| {
      var k :| 0 <= k < |batch| && batch[k] == r;
    }
  }

  function Metas(failed: map<Uid, FailedCell>): map<Uid, Meta> {
    map u | u in failed :: failed[u].meta
  }

  function Payloads(failed: map<Uid, FailedCell>): map<Uid, Payload> {
    map u | u in failed && failed[u].payload.Some? :: failed[u].payload.value
  }

  class SqliteStateBackend {
    var queue: map<Uid, Cell>
    var successes: map<Uid, Meta>
    var failed: map<Uid, FailedCell>
    var cursors: map<string, string>
    var attempts: map<nat, Attempt>
    var nextAttempt: nat
    ghost var rows: seq<Row>

    ghost predicate Valid()
      reads this
    {
      Stored(queue, rows) && nextAttempt >= 1 && forall a :: a in attempts ==> a < nextAttempt
    }

    lemma ValidMeansWellFormed()
      requires Valid()
      ensures View().WellFormed()
    {
      StoredUids(queue, rows);
    }

    ghost function View(): Disk
      reads this
    {
      Disk(rows, successes, Metas(failed), Payloads(failed), cursors, attempts, nextAttempt)
    }

    constructor ()
      ensures Valid() && View() == Disk([], map[], map[], map[], map[], map[], 1)
    {
      queue, successes, failed, cursors, attempts := map[], map[], map[], map[], map[];
      nextAttempt, rows := 1, [];
    }

    /** Order-preserving positions for `count` new rows, before or after everything stored. */
    static method PositionRange(q: map<Uid, Cell>, count: nat, front: bool) returns (base: int)
      ensures front ==> forall u :: u in q ==> base + count <= q[u].position
      ensures !front ==> forall u :: u in q ==> q[u].position < base
    {
      var low, high := 0, -1;  // the empty table
      var todo, first := q.Keys, true;
      while todo != {}
        invariant todo <= q.Keys && (first <==> todo == q.Keys)
        invariant forall u :: u in q && u !in todo ==> low <= q[u].position <= high
      {
        var u :| u in todo;
        if first || q[u].position < low { low := q[u].position; }
        if first || q[u].position > high { high := q[u].position; }
        todo, first := todo - {u}, false;
      }
      base := if front then low - count else high + 1;
    }

    /** Insert distinct new rows at consecutive positions before or after the stored ones. */
    static method InsertAll(q0: map<Uid, Cell>, ghost rows: seq<Row>, batch: seq<Row>, base: int, front: bool)
      returns (q: map<Uid, Cell>)
      requires Stored(q0, rows) && DistinctUids(batch) && forall r :: r in batch ==> r.uid !in q0
      requires front ==> forall u :: u in q0 ==> base + |batch| <= q0[u].position
      requires !front ==> forall u :: u in q0 ==> q0[u].position < base
      ensures Stored(q, if front then batch + rows else rows + batch)
    {
      q := q0;
      for i := 0 to |batch|
        invariant Inserted(q0, q, batch[..i], base)
      {
        InsertOne(q0, q, batch, i, base);
        q := q[batch[i].uid := Cell(base + i, batch[i])];
      }
      assert batch[..|batch|] == batch;
      StoredBatch(q0, rows, q, batch, base, front);
    }

    /** SELECT job_snapshot FROM queue ORDER BY queue_position ASC. */
    method LoadQueue() returns (out: seq<Row>)
      requires Valid()
      ensures out == View().queue
    {
      out := [];
      var todo := queue.Keys;
      StoredUids(queue, rows);
      assert rows[0..] == rows;
      while todo != {}
        invariant |out| <= |rows| && out == rows[..|out|]
        invariant todo == UidSet(rows[|out|..]) && todo <= queue.Keys
      {
        var u := LowestOf(queue, todo);
        LowestIsNext(queue, rows, |out|, u);
        todo := todo - {u};
        out := out + [queue[u].row];
      }
      SomeMember(rows[|out|..]);
      assert forall r :: r in rows[|out|..] ==> r.uid in todo;
    }

    static method LowestOf(q: map<Uid, Cell>, s: set<Uid>) returns (u: Uid)
      requires s != {} && s <= q.Keys
      ensures u in s && forall v :: v in s ==> q[u].position <= q[v].position
    {
      u :| u in s;
      var todo := s - {u};
      while todo != {}
        invariant u in s && todo <= s
        invariant forall v :: v in s && v !in todo ==> q[u].position <= q[v].position
      {
        var v :| v in todo;
        todo := todo - {v};
        if q[v].position < q[u].position { u := v; }
      }
    }

    /** DELETE everything, then write the deduplicated rows at positions 0, 1, 2, ... */
    method RewriteQueueRows(batch: seq<Row>)
      requires Valid()
      modifies this`queue, this`rows
      ensures Valid() && View() == old(View()).SaveQueue(batch)
    {
      var q, kept := FreshRows(batch);
      queue, rows := q, kept;
    }

    static method FreshRows(batch: seq<Row>) returns (q: map<Uid, Cell>, kept: seq<Row>)
      ensures kept == KeepFirst(batch, {}) && Stored(q, kept)
    {
      kept := FirstNew(batch, {});
      KeepFirstMeans(batch, {});
      q := InsertAll(map[], [], kept, 0, false);
      assert [] + kept == kept;
    }

    method SaveQueue(batch: seq<Row>, fault: bool) returns (r: Reply)
      requires Valid()
      modifies this
      ensures Valid()
      ensures fault ==> View() == old(View()) && r == Raised
      ensures !fault ==> View() == old(View()).SaveQueue(batch) && r == Done
    {
      if fault { return Raised; }
      RewriteQueueRows(batch);
      r := Done;
    }

    /** Read, compute and write back inside one write transaction. */
    method ReplaceQueueAtomic(compute: seq<Row> -> seq<Row>, fault: bool) returns (r: Reply)
      requires Valid()
      modifies this
      ensures Valid()
      ensures fault ==> View() == old(View()) && r == Raised
      ensures !fault ==> View() == old(View()).SaveQueue(compute(old(View()).queue)) && r == Done
    {
      if fault { return Raised; }
      var disk := LoadQueue();
      RewriteQueueRows(compute(disk));
      r := Done;
    }

    /** DELETE FROM queue WHERE job_uid IN gone. */
    method DeleteRows(gone: set<Uid>)
      requires Valid()
      modifies this`queue, this`rows
      ensures Valid() && View() == old(View()).(queue := Without(old(rows), gone))
    {
      StoredDelete(queue, rows, gone);
      queue := queue - gone;
      rows := Without(rows, gone);
    }

    /** Insert new distinct rows before or after everything stored. */
    method InsertRows(batch: seq<Row>, front: bool)
      requires Valid() && DistinctUids(batch) && forall r :: r in batch ==> r.uid !in queue
      modifies this`queue, this`rows
      ensures Valid() && View() == old(View()).(queue := if front then batch + old(rows) else old(rows) + batch)
    {
      var base := PositionRange(queue, |batch|, front);
      queue := InsertAll(queue, rows, batch, base, front);
      rows := if front then batch + rows else rows + batch;
      StoredUids(queue, rows);
    }

    /** Finalise the attempt, record the success, drop the queue and failure rows, insert the
        spawned rows at the head and move the cursors: all or nothing. */
    method CommitJobSuccess(c: SuccessCommit, fault: bool) returns (r: Reply)
      requires Valid()
      modifies this
      ensures Valid()
      ensures fault ==> View() == old(View()) && r == Flag(false)
      ensures !fault ==> (View(), r) == old(View()).CommitSuccess(c)
    {
      if fault || c.attempt.None? || c.execution == Some("") || c.finishedAt == "" || c.attempt.value !in attempts {
        return Flag(false);
      }
      var row := attempts[c.attempt.value];
      if row.uid != c.uid || (c.execution.Some? && row.executionId != c.execution.value) || row.outcome != Running {
        return Flag(false);
      }
      ghost var d := View();
      var fits := SwapQueueRows(c.uid, c.spawned);
      assert d.MayFinish(c) && (fits <==> !d.Collides(c));
      if !fits {
        return Flag(false);
      }
      RecordSuccess(c, row);
      r := Flag(true);
    }

    /** Everything of a success but the queue. */
    method RecordSuccess(c: SuccessCommit, row: Attempt)
      requires Valid() && c.attempt.Some? && c.attempt.value in attempts
      modifies this`attempts, this`successes, this`failed, this`cursors
      ensures Valid() && View() == old(View()).(
        attempts := old(attempts)[c.attempt.value := row.(
          outcome := Succeeded, finishedAt := Some(c.finishedAt), error := None)],
        successes := old(successes)[c.uid := c.meta], failed := old(View()).failed - {c.uid},
        payloads := old(View()).payloads - {c.uid}, cursors := MergeCursors(old(cursors), c.cursors))
    {
      var done := row.(outcome := Succeeded, finishedAt := Some(c.finishedAt), error := None);
      attempts := attempts[c.attempt.value := done];
      successes := successes[c.uid := c.meta];
      DropFailed({c.uid});
      cursors := MergeCursors(cursors, c.cursors);
    }

    /** Drop the row of `u` and insert the spawned rows at the head, or roll both back. */
    method SwapQueueRows(u: Uid, spawned: seq<Row>) returns (fits: bool)
      requires Valid()
      modifies this`queue, this`rows
      ensures Valid() && (fits <==> KeepFirst(spawned, UidSet(Without(old(rows), {u}))) == spawned)
      ensures View() == if fits then old(View()).(queue := spawned + Without(old(rows), {u})) else old(View())
    {
      var keptQueue := queue;
      ghost var keptRows := rows;
      DeleteRows({u});
      if spawned == [] {
        assert [] + rows == rows;
        return true;
      }
      var inserted := InsertOrIgnore(spawned);
      fits := inserted == |spawned|;
      if !fits {
        queue, rows := keptQueue, keptRows;  // rollback
      }
    }

    /** INSERT OR IGNORE at the head; the row count tells how many were really inserted. */
    method InsertOrIgnore(spawned: seq<Row>) returns (inserted: nat)
      requires Valid()
      modifies this`queue, this`rows
      ensures Valid() && inserted == |KeepFirst(spawned, UidSet(old(rows)))| <= |spawned|
      ensures inserted == |spawned| <==> KeepFirst(spawned, UidSet(old(rows))) == spawned
      ensures inserted == |spawned| ==> View() == old(View()).(queue := spawned + old(rows))
    {
      StoredUids(queue, rows);
      KeepFirstMeans(spawned, UidSet(rows));
      KeepFirstFixed(spawned, UidSet(rows));
      var firsts := FirstNew(spawned, queue.Keys);
      assert forall r :: r in firsts ==> r.uid in UidSet(firsts);
      InsertRows(firsts, true);
      inserted := |firsts|;
    }

    static function FailedRow(failed: map<Uid, FailedCell>, u: Uid, m: Meta, payload: Option<Payload>)
      : map<Uid, FailedCell>
    {
      failed[u := FailedCell(m, if payload.Some? then payload else if u in failed then failed[u].payload else None)]
    }

    method CommitJobFailure(u: Uid, m: Meta, payload: Option<Payload>, fault: bool) returns (r: Reply)
      requires Valid()
      modifies this
      ensures Valid()
      ensures fault ==> View() == old(View()) && r == Flag(false)
      ensures !fault ==> View() == old(View()).CommitFailure(u, m, payload) && r == Flag(true)
    {
      if fault { return Flag(false); }
      WriteOne(failed, u, m, payload);
      DeleteRows({u});
      failed := FailedRow(failed, u, m, payload);
      successes := successes - {u};
      r := Flag(true);
    }

    method CommitRetry(popped: Uid, row: Row, front: bool, fault: bool) returns (r: Reply)
      requires Valid()
      modifies this
      ensures Valid()
      ensures fault ==> View() == old(View()) && r == Flag(false)
      ensures !fault ==> (View(), r) == old(View()).CommitRetry(popped, row, front)
      ensures !fault ==> Contract.Retries(old(View()), popped, row, front, View(), r)
    {
      if fault { return Flag(false); }
      Contract.RetryDoes(View(), popped, row, front);
      r := Reinsert(popped, row, front);
    }

    /** Delete and insert as one step, rolled back when the row collides. */
    method Reinsert(popped: Uid, row: Row, front: bool) returns (r: Reply)
      requires Valid()
      modifies this`queue, this`rows
      ensures Valid() && (View(), r) == old(View()).CommitRetry(popped, row, front)
    {
      var keptQueue := queue;
      ghost var keptRows := rows;
      DeleteRows({popped});
      StoredUids(queue, rows);
      if row.uid in queue {
        queue, rows := keptQueue, keptRows;  // the INSERT violates the primary key: rollback
        return Flag(false);
      }
      InsertRows([row], front);
      r := Flag(true);
    }

    method CommitJobFailures(batch: seq<(Uid, Meta)>, fault: bool) returns (r: Reply)
      requires Valid()
      modifies this
      ensures Valid()
      ensures fault ==> View() == old(View()) && r == Flag(false)
      ensures !fault ==> View() == old(View()).CommitFailures(batch) && r == Flag(true)
    {
      if fault { return Flag(false); }
      failed := WriteFailedRows(failed, batch);
      DeleteRows(BatchUids(batch));
      successes := successes - BatchUids(batch);
      r := Flag(true);
    }

    static method WriteFailedRows(f0: map<Uid, FailedCell>, batch: seq<(Uid, Meta)>) returns (f: map<Uid, FailedCell>)
      ensures Metas(f) == FailAll(Metas(f0), batch) && Payloads(f) == Payloads(f0)
    {
      f := f0;
      for i := 0 to |batch|
        invariant Metas(f) == FailAll(Metas(f0), batch[..i]) && Payloads(f) == Payloads(f0)
      {
        assert batch[..i + 1][..i] == batch[..i];
        WriteOne(f, batch[i].0, batch[i].1, None);
        f := FailedRow(f, batch[i].0, batch[i].1, None);
      }
      assert batch[..|batch|] == batch;
    }

    /** A write without a payload keeps the snapshot already stored. */
    static lemma WriteOne(f: map<Uid, FailedCell>, u: Uid, m: Meta, p: Option<Payload>)
      ensures Metas(FailedRow(f, u, m, p)) == Metas(f)[u := m]
      ensures Payloads(FailedRow(f, u, m, p)) == if p.Some? then Payloads(f)[u := p.value] else Payloads(f)
    {
    }

    method CommitSkip(u: Uid, fault: bool) returns (r: Reply)
      requires Valid()
      modifies this
      ensures Valid()
      ensures fault ==> View() == old(View()) && r == Flag(false)
      ensures !fault ==> View() == old(View()).CommitSkip(u) && r == Flag(true)
    {
      if fault { return Flag(false); }
      DeleteRows({u});
      r := Flag(true);
    }

    method AppendFailed(u: Uid, m: Meta, fault: bool) returns (r: Reply)
      requires Valid()
      modifies this
      ensures Valid()
      ensures fault ==> View() == old(View()) && r == Raised
      ensures !fault ==> View() == old(View()).AppendFailed(u, m) && r == Done
    {
      if fault { return Raised; }
      WriteOne(failed, u, m, None);
      failed := FailedRow(failed, u, m, None);
      r := Done;
    }

    method EnqueueJobs(batch: seq<Row>, front: bool, fault: bool) returns (r: Reply)
      requires Valid()
      modifies this
      ensures Valid()
      ensures fault ==> View() == old(View()) && (r == Raised || (r == Uids([]) && batch == []))
      ensures !fault ==> (View(), r) == old(View()).Enqueue(batch, front)
    {
      if batch == [] {
        assert rows + batch == rows == batch + rows && Names(batch) == [];
        return Uids([]);
      }
      if fault { return Raised; }
      StoredUids(queue, rows);
      var added := FirstNew(batch, queue.Keys);
      KeepFirstMeans(batch, queue.Keys);
      if added == [] {
        assert rows + added == rows == added + rows && Names(added) == [];
        return Uids([]);
      }
      assert forall x :: x in added ==> x.uid in UidSet(added);
      InsertRows(added, front);
      r := Uids(Names(added));
    }

    /** DELETE and the number of rows it removed. */
    method DeleteCounted(gone: set<Uid>) returns (n: nat)
      requires Valid()
      modifies this`queue, this`rows
      ensures Valid() && View() == old(View()).(queue := Without(old(rows), gone))
      ensures |Without(old(rows), gone)| + n == |old(rows)|
    {
      WithoutShrinks(rows, gone);
      StoredCount(queue, rows);
      var before := |queue|;
      DeleteRows(gone);
      StoredCount(queue, rows);
      n := before - |queue|;
    }

    method DeleteQueueUids(uids: seq<Uid>) returns (r: Reply)
      requires Valid()
      modifies this
      ensures Valid() && (View(), r) == old(View()).DeleteQueue(uids)
    {
      if uids == [] {
        WithoutShrinks(rows, SetOf(uids));
        return Count(0);
      }
      var n := DeleteCounted(SetOf(uids));
      r := Count(n);
    }

    method DeleteFailed(uids: seq<Uid>) returns (r: Reply)
      requires Valid()
      modifies this
      ensures Valid() && (View(), r) == old(View()).DeleteFailed(uids)
    {
      var gone := SetOf(uids);
      var _, count := DropKeys(Metas(failed), gone);
      DropFailed(gone);
      r := Count(count);
    }

    method DropFailed(gone: set<Uid>)
      requires Valid()
      modifies this`failed
      ensures Valid()
      ensures View() == old(View()).(failed := old(View()).failed - gone, payloads := old(View()).payloads - gone)
    {
      DropFailedRows(failed, gone);
      failed := failed - gone;
    }

    method DeleteSuccesses(uids: seq<Uid>) returns (r: Reply)
      requires Valid()
      modifies this
      ensures Valid() && (View(), r) == old(View()).DeleteSuccesses(uids)
    {
      var kept, count := DropKeys(successes, SetOf(uids));
      successes := kept;
      r := Count(count);
    }

    method SeedSuccesses(uids: seq<Uid>, empty: Meta) returns (r: Reply)
      requires Valid()
      modifies this
      ensures Valid() && (View(), r) == old(View()).SeedSuccesses(uids, empty)
    {
      if exists u :: u in uids && u in failed { return Raised; }
      successes := SeedAll(successes, uids, empty);
      r := Count(|uids|);
    }

    method SeedCursor(k: string, v: string) returns (r: Reply)
      requires Valid()
      modifies this
      ensures Valid() && (View(), r) == old(View()).SeedCursor(k, v)
    {
      if k == "" { return Raised; }
      cursors := cursors[k := v];
      r := Done;
    }

    method AppendAttempt(a: Attempt) returns (r: Reply)
      requires Valid()
      modifies this
      ensures Valid() && (View(), r) == old(View()).AppendAttempt(a)
    {
      if a.outcome != Running || a.finishedAt.Some? || a.error.Some? { return Raised; }
      attempts := attempts[nextAttempt := a];
      r := Id(nextAttempt);
      nextAttempt := nextAttempt + 1;
    }

    method UpdateAttempt(id: nat, outcome: Outcome, at: string, error: Option<string>) returns (r: Reply)
      requires Valid()
      modifies this
      ensures Valid() && (View(), r) == old(View()).UpdateAttempt(id, outcome, at, error)
    {
      if outcome == Running || at == "" || error == Some("") { return Raised; }
      if id !in attempts { return Flag(false); }
      if attempts[id].outcome != Running { return Raised; }
      attempts := attempts[id := attempts[id].(outcome := outcome, finishedAt := Some(at), error := error)];
      r := Flag(true);
    }

    method Execute(op: Op) returns (r: Reply)
      requires Valid()
      modifies this
      ensures Valid() && (View(), r) == Apply(old(View()), op) && Contract.Does(old(View()), op, View(), r)
    {
      Contract.ApplyDoes(View(), op);
      if op.OpSuccess? || op.OpFailure? || op.OpFailures? || op.OpRetry? || op.OpSkip? {
        r := ExecuteCommit(op);
      } else if op.OpEnqueue? || op.OpDeleteQueue? {
        r := ExecuteRows(op);
      } else if op.OpSave? || op.OpReplace? {
        r := ExecuteQueue(op);
      } else {
        r := ExecuteRecord(op);
      }
    }

    method ExecuteCommit(op: Op) returns (r: Reply)
      requires Valid() && (op.OpSuccess? || op.OpFailure? || op.OpFailures? || op.OpRetry? || op.OpSkip?)
      modifies this
      ensures Valid() && (View(), r) == Apply(old(View()), op)
    {
      match op {
        case OpSuccess(c) => r := CommitJobSuccess(c, false);
        case OpFailure(u, m, p) => r := CommitJobFailure(u, m, p, false);
        case OpFailures(batch) => r := CommitJobFailures(batch, false);
        case OpRetry(u, row, front) => r := CommitRetry(u, row, front, false);
        case OpSkip(u) => r := CommitSkip(u, false);
      }
    }

    method ExecuteRows(op: Op) returns (r: Reply)
      requires Valid() && (op.OpEnqueue? || op.OpDeleteQueue?)
      modifies this
      ensures Valid() && (View(), r) == Apply(old(View()), op)
    {
      match op {
        case OpEnqueue(batch, front) => r := EnqueueJobs(batch, front, false);
        case OpDeleteQueue(uids) => r := DeleteQueueUids(uids);
      }
    }

    method ExecuteQueue(op: Op) returns (r: Reply)
      requires Valid() && (op.OpSave? || op.OpReplace?)
      modifies this
      ensures Valid() && (View(), r) == Apply(old(View()), op)
    {
      match op {
        case OpSave(batch) => r := SaveQueue(batch, false);
        case OpReplace(compute) => r := ReplaceQueueAtomic(compute, false);
      }
    }

    method ExecuteRecord(op: Op) returns (r: Reply)
      requires Valid()
      requires op.OpAppendFailed? || op.OpDeleteFailed? || op.OpDeleteSuccesses? || op.OpSeedSuccesses? ||
        op.OpSeedCursor? || op.OpAppendAttempt? || op.OpUpdateAttempt?
      modifies this
      ensures Valid() && (View(), r) == Apply(old(View()), op)
    {
      if op.OpDeleteFailed? || op.OpDeleteSuccesses? {
        r := ExecuteDelete(op);
      } else if op.OpAppendFailed? || op.OpSeedSuccesses? {
        r := ExecuteArchive(op);
      } else {
        r := ExecuteOther(op);
      }
    }

    method ExecuteDelete(op: Op) returns (r: Reply)
      requires Valid() && (op.OpDeleteFailed? || op.OpDeleteSuccesses?)
      modifies this
      ensures Valid() && (View(), r) == Apply(old(View()), op)
    {
      if op.OpDeleteFailed? {
        assert Apply(View(), op) == View().DeleteFailed(op.uids);
        r := DeleteFailed(op.uids);
      } else {
        assert Apply(View(), op) == View().DeleteSuccesses(op.uids);
        r := DeleteSuccesses(op.uids);
      }
    }

    method ExecuteArchive(op: Op) returns (r: Reply)
      requires Valid() && (op.OpAppendFailed? || op.OpSeedSuccesses?)
      modifies this
      ensures Valid() && (View(), r) == Apply(old(View()), op)
    {
      match op {
        case OpAppendFailed(u, m) => r := AppendFailed(u, m, false);
        case OpSeedSuccesses(uids, empty) => r := SeedSuccesses(uids, empty);
      }
    }

    method ExecuteOther(op: Op) returns (r: Reply)
      requires Valid() && (op.OpSeedCursor? || op.OpAppendAttempt? || op.OpUpdateAttempt?)
      modifies this
      ensures Valid() && (View(), r) == Apply(old(View()), op)
    {
      match op {
        case OpSeedCursor(k, v) => r := SeedCursor(k, v);
        case OpAppendAttempt(a) => r := AppendAttempt(a);
        case OpUpdateAttempt(id, o, at, e) => r := UpdateAttempt(id, o, at, e);
      }
    }
  }

  /** The lowest position among the rows from `k` on is that of row `k`. */
  lemma LowestIsNext(q: map<Uid, Cell>, rows: seq<Row>, k: nat, u: Uid)
    requires Stored(q, rows) && k <= |rows| && u in UidSet(rows[k..]) && UidSet(rows[k..]) <= q.Keys
    requires forall v :: v in UidSet(rows[k..]) ==> q[u].position <= q[v].position
    ensures k < |rows| && u == rows[k].uid && q[u].row == rows[k]
    ensures UidSet(rows[k..]) - {u} == UidSet(rows[k + 1..])
    ensures rows[..k] + [rows[k]] == rows[..k + 1]
  {
    var t := rows[k..];
    var i :| 0 <= i < |t| && t[i].uid == u;
    assert rows[k] in rows && rows[k + i] in rows && t[0].uid in UidSet(t);
    assert PositionOf(q, rows[k]) <= PositionOf(q, rows[k + i]);
    StoredUids(q, rows);
    DropHead(rows, k);
  }

  lemma DropHead(rows: seq<Row>, k: nat)
    requires DistinctUids(rows) && k < |rows|
    ensures UidSet(rows[k..]) - {rows[k].uid} == UidSet(rows[k + 1..])
  {
    var t, rest := rows[k..], rows[k + 1..];
    assert t == [rows[k]] + rest;
    UidSetAppend([rows[k]], rest);
    assert UidSet([rows[k]]) == {rows[k].uid} by { assert rows[k] in [rows[k]]; }
    forall v | v in UidSet(rest) ensures v != rows[k].uid {
      var j :| 0 <= j < |rest| && rest[j].uid == v;
      assert rows[k + 1 + j].uid != rows[k].uid;
    }
  }

  lemma StoredCount(q: map<Uid, Cell>, rows: seq<Row>)
    requires Stored(q, rows)
    ensures |q| == |rows|
  {
    StoredUids(q, rows);
    UidCount(rows);
    assert |q| == |q.Keys|;
  }

  /** Projections commute with deletion. */
  lemma DropFailedRows(f: map<Uid, FailedCell>, gone: set<Uid>)
    ensures Metas(f - gone) == Metas(f) - gone && Payloads(f - gone) == Payloads(f) - gone
  {
  }

  lemma UidCount(rows: seq<Row>)
    requires DistinctUids(rows)
    ensures |UidSet(rows)| == |rows|
  {
    if rows != [] {
      var front, last := rows[..|rows| - 1], rows[|rows| - 1];
      assert rows == front + [last];
      UidCount(front);
      UidSetAppend(front, [last]);
      assert UidSet([last]) == {last.uid} by { assert last in [last]; }
      assert last.uid !in UidSet(front) && UidSet(rows) == UidSet(front) + {last.uid};
    }
  }

  lemma InsertOne(q0: map<Uid, Cell>, q: map<Uid, Cell>, batch: seq<Row>, i: nat, base: int)
    requires i < |batch| && Inserted(q0, q, batch[..i], base)
    requires DistinctUids(batch) && forall r :: r in batch ==> r.uid !in q0
    ensures Inserted(q0, q[batch[i].uid := Cell(base + i, batch[i])], batch[..i + 1], base)
  {
    var q' := q[batch[i].uid := Cell(base + i, batch[i])];
    var now := batch[..i + 1];
    assert batch[i] in batch;
    forall u | u in q' ensures u in q0 || exists k :: 0 <= k < |now| && now[k].uid == u {
      if u == batch[i].uid {
        assert now[i].uid == u;
      } else if u !in q0 {
        var k :| 0 <= k < i && batch[..i][k].uid == u;
        assert now[k].uid == u;
      }
    }
    forall k | 0 <= k < i + 1 ensures now[k].uid in q' && q'[now[k].uid] == Cell(base + k, now[k]) {
      if k < i {
        assert batch[..i][k] == now[k] && batch[k].uid != batch[i].uid;
      }
    }
  }
}

/** The two backends are indistinguishable by any sequence of calls. */
module Bisimulation {
  import opened Jobs
  import opened Disk
  import opened MemoryBackend
  import opened SqliteBackend

  /** Same calls, same replies, same tables, however long the run; the SQLite queue positions
      stay strictly increasing along the shared order. */
  method Bisimulate(ops: seq<Op>, mem: InMemoryStateBackend, sql: SqliteStateBackend)
    returns (memReplies: seq<Reply>, sqlReplies: seq<Reply>)
    requires sql.Valid() && mem.View() == sql.View()
    modifies mem, sql
    ensures memReplies == sqlReplies && mem.View() == sql.View() && sql.Valid()
    ensures (mem.View(), memReplies) == ApplyAll(old(mem.View()), ops)
  {
    memReplies, sqlReplies := [], [];
    for i := 0 to |ops|
      invariant sql.Valid() && mem.View() == sql.View() && memReplies == sqlReplies
      invariant (mem.View(), memReplies) == ApplyAll(old(mem.View()), ops[..i])
    {
      assert ops[..i + 1][..i] == ops[..i];
      sql.ValidMeansWellFormed();
      var a := mem.Execute(ops[i]);
      var b := sql.Execute(ops[i]);
      memReplies, sqlReplies := memReplies + [a], sqlReplies + [b];
    }
    assert ops[..|ops|] == ops;
  }
}
