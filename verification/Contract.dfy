/** What every backend call means, table by table and row by row: a relation between the tables
    before and after, stated without the functions of `Disk`, which are proved to satisfy it. */
module Contract {
  import opened Jobs
  import opened State
  import opened Disk

  // ---- tables ----

  /** The rows of `before` whose uid is not in `gone`, in their order. */
  ghost predicate Lose(before: seq<Row>, after: seq<Row>, gone: set<Uid>) {
    exists positions :: ReadOff(before, positions, after) &&
      forall i :: i in positions <==> 0 <= i < |before| && before[i].uid !in gone
  }

  /** The first row of every uid that is not in `known`, in their order. */
  ghost predicate Firsts(rows: seq<Row>, known: set<Uid>, added: seq<Row>) {
    exists positions :: ReadOff(rows, positions, added) && forall i :: i in positions <==> FirstOfUid(rows, known, i)
  }

  /** `part` is the head of `whole`, or its tail, and `rest` is what else there is. */
  ghost predicate Joined(whole: seq<Row>, part: seq<Row>, rest: seq<Row>, front: bool) {
    && |whole| == |part| + |rest|
    && (forall i :: 0 <= i < |part| ==> whole[if front then i else |rest| + i] == part[i])
    && (forall i :: 0 <= i < |rest| ==> whole[if front then |part| + i else i] == rest[i])
  }

  /** Key `k` now has the value, or none if there is none; every other key is as it was. */
  ghost predicate Changed<K(!new), V>(before: map<K, V>, after: map<K, V>, k: K, v: Option<V>) {
    && (if v.Some? then k in after && after[k] == v.value else k !in after)
    && forall x :: x != k ==> (x in after <==> x in before) && (x in after && x in before ==> after[x] == before[x])
  }

  ghost predicate Dropped<K(!new), V>(before: map<K, V>, after: map<K, V>, gone: set<K>) {
    forall x :: (x in after <==> x in before && x !in gone) && (x in after && x in before ==> after[x] == before[x])
  }

  /** A value overwrites, no value deletes, an unnamed key stays. */
  ghost predicate Moved(before: map<string, string>, after: map<string, string>, updates: map<string, Option<string>>) {
    && (forall k :: k in updates && updates[k].Some? ==> k in after && after[k] == updates[k].value)
    && (forall k :: k in updates && updates[k].None? ==> k !in after)
    && (forall k :: k !in updates ==>
          (k in after <==> k in before) && (k in after && k in before ==> after[k] == before[k]))
  }

  lemma CursorsMove(before: map<string, string>, updates: map<string, Option<string>>)
    ensures Moved(before, MergeCursors(before, updates), updates)
  {
  }

  lemma WithoutLoses(rows: seq<Row>, gone: set<Uid>)
    ensures Lose(rows, Without(rows, gone), gone)
  {
    var positions := WithoutReadsOff(rows, gone);
  }

  lemma KeepFirstsOnly(rows: seq<Row>, known: set<Uid>)
    ensures Firsts(rows, known, KeepFirst(rows, known))
  {
    var positions := KeepFirstReadsOff(rows, known);
  }

  // ---- what a call does ----

  /** Everything but the queue and the terminal tables. */
  ghost predicate SameTrace(d: Disk, e: Disk) {
    e.cursors == d.cursors && e.attempts == d.attempts && e.nextAttempt == d.nextAttempt
  }

  ghost predicate SameRecords(d: Disk, e: Disk) {
    e.successes == d.successes && e.failed == d.failed && e.payloads == d.payloads
  }

  /** A success is accepted if it names a running attempt of its job and execution, and if each of
      its spawned uids is new to the queue without the job itself, and named once. */
  ghost predicate Acceptable(d: Disk, c: SuccessCommit) {
    && c.finishedAt != "" && c.attempt.Some? && c.attempt.value in d.attempts
    && d.attempts[c.attempt.value].uid == c.uid && d.attempts[c.attempt.value].outcome.Running?
    && (c.execution.Some? ==> c.execution.value == d.attempts[c.attempt.value].executionId != "")
    && (forall i, j :: 0 <= i < j < |c.spawned| ==> c.spawned[i].uid != c.spawned[j].uid)
    && (forall i, j :: 0 <= i < |c.spawned| && 0 <= j < |d.queue| && c.spawned[i].uid == d.queue[j].uid ==>
          d.queue[j].uid == c.uid)
  }

  /** The spawned jobs head the queue in their order; the job's row is gone; its only record is the
      success; the attempt is finished with its time and no error. */
  ghost predicate Succeeds(d: Disk, c: SuccessCommit, e: Disk) {
    && (exists rest: seq<Row> :: Lose(d.queue, rest, {c.uid}) && Joined(e.queue, c.spawned, rest, true))
    && Changed(d.successes, e.successes, c.uid, Some(c.meta))
    && Changed(d.failed, e.failed, c.uid, None) && Changed(d.payloads, e.payloads, c.uid, None)
    && Moved(d.cursors, e.cursors, c.cursors) && e.nextAttempt == d.nextAttempt
    && c.attempt.Some? && c.attempt.value in d.attempts
    && var a := d.attempts[c.attempt.value];
       Changed(d.attempts, e.attempts, c.attempt.value,
               Some(Attempt(a.uid, a.executionId, Succeeded, Some(c.finishedAt), None)))
  }

  ghost predicate Fails(d: Disk, u: Uid, m: Meta, payload: Option<Payload>, e: Disk) {
    && Lose(d.queue, e.queue, {u})
    && Changed(d.failed, e.failed, u, Some(m)) && Changed(d.successes, e.successes, u, None)
    && (if payload.Some? then Changed(d.payloads, e.payloads, u, payload) else e.payloads == d.payloads)
    && SameTrace(d, e)
  }

  /** `i` is the last entry of its uid. */
  ghost predicate LastOfUid(batch: seq<(Uid, Meta)>, i: int) {
    0 <= i < |batch| && forall j :: i < j < |batch| ==> batch[j].0 != batch[i].0
  }

  ghost predicate FailTogether(d: Disk, batch: seq<(Uid, Meta)>, e: Disk) {
    && Lose(d.queue, e.queue, BatchUids(batch)) && Dropped(d.successes, e.successes, BatchUids(batch))
    && Recorded(d.failed, batch, e.failed) && e.payloads == d.payloads && SameTrace(d, e)
  }

  /** A named uid has the metadata of its last entry, any other uid what it had. */
  ghost predicate Recorded(before: map<Uid, Meta>, batch: seq<(Uid, Meta)>, after: map<Uid, Meta>) {
    && after.Keys == before.Keys + BatchUids(batch)
    && (forall i :: LastOfUid(batch, i) ==> batch[i].0 in after && after[batch[i].0] == batch[i].1)
    && (forall u :: u in before && u !in BatchUids(batch) ==> u in after && after[u] == before[u])
  }

  /** The row of `u` goes; the given row joins at the asked end, unless another job has its uid. */
  ghost predicate Retries(d: Disk, u: Uid, row: Row, front: bool, e: Disk, reply: Reply) {
    if exists j :: 0 <= j < |d.queue| && d.queue[j].uid == row.uid && row.uid != u then e == d && reply == Flag(false)
    else
      && reply == Flag(true) && SameRecords(d, e) && SameTrace(d, e)
      && exists rest: seq<Row> :: Lose(d.queue, rest, {u}) && Joined(e.queue, [row], rest, front)
  }

  /** New jobs join at the asked end in their order; the reply names them. */
  ghost predicate Enqueues(d: Disk, rows: seq<Row>, front: bool, e: Disk, reply: Reply) {
    && SameRecords(d, e) && SameTrace(d, e)
    && exists added: seq<Row> :: Firsts(rows, UidSet(d.queue), added) && Joined(e.queue, added, d.queue, front)
         && reply.Uids? && |reply.uids| == |added| && forall k :: 0 <= k < |added| ==> reply.uids[k] == added[k].uid
  }

  /** Only a running attempt is finished, with all that a finished one must have. */
  ghost predicate Finishes(d: Disk, id: nat, outcome: Outcome, at: string, error: Option<string>, e: Disk,
                           reply: Reply)
  {
    if outcome.Running? || at == "" || error == Some("") then e == d && reply == Raised
    else if id !in d.attempts then e == d && reply == Flag(false)
    else if !d.attempts[id].outcome.Running? then e == d && reply == Raised
    else
      && reply == Flag(true) && e.queue == d.queue && SameRecords(d, e)
      && e.cursors == d.cursors && e.nextAttempt == d.nextAttempt
      && var a := d.attempts[id];
         Changed(d.attempts, e.attempts, id, Some(Attempt(a.uid, a.executionId, outcome, Some(at), error)))
  }

  ghost predicate Opens(d: Disk, a: Attempt, e: Disk, reply: Reply) {
    if !a.outcome.Running? || a.finishedAt.Some? || a.error.Some? then e == d && reply == Raised
    else
      && reply == Id(d.nextAttempt) && e.nextAttempt == d.nextAttempt + 1
      && Changed(d.attempts, e.attempts, d.nextAttempt, Some(a))
      && e.queue == d.queue && SameRecords(d, e) && e.cursors == d.cursors
  }

  ghost predicate Seeds(d: Disk, uids: seq<Uid>, empty: Meta, e: Disk, reply: Reply) {
    if exists i :: 0 <= i < |uids| && uids[i] in d.failed then e == d && reply == Raised
    else
      && reply == Count(|uids|) && e.queue == d.queue && SameTrace(d, e)
      && e.failed == d.failed && e.payloads == d.payloads
      && (forall u :: u in e.successes <==> u in d.successes || u in uids)
      && (forall u :: u in e.successes ==> if u in uids then e.successes[u] == empty
                                           else u in d.successes && e.successes[u] == d.successes[u])
  }

  /** Calls that only take rows away, or only replace the queue. */
  ghost predicate Trims(d: Disk, op: Op, e: Disk, reply: Reply) {
    match op
    case OpSkip(u) => Lose(d.queue, e.queue, {u}) && SameRecords(d, e) && SameTrace(d, e) && reply == Flag(true)
    case OpSave(rows) => Firsts(rows, {}, e.queue) && SameRecords(d, e) && SameTrace(d, e) && reply == Done
    case OpReplace(compute) =>
      Firsts(compute(d.queue), {}, e.queue) && SameRecords(d, e) && SameTrace(d, e) && reply == Done
    case OpDeleteQueue(uids) =>
      && Lose(d.queue, e.queue, SetOf(uids)) && SameRecords(d, e) && SameTrace(d, e)
      && reply.Count? && reply.n + |e.queue| == |d.queue|
    case OpDeleteFailed(uids) =>
      && Dropped(d.failed, e.failed, SetOf(uids)) && Dropped(d.payloads, e.payloads, SetOf(uids))
      && e.queue == d.queue && e.successes == d.successes && SameTrace(d, e)
      && reply.Count? && reply.n + |e.failed| == |d.failed|
    case OpDeleteSuccesses(uids) =>
      && Dropped(d.successes, e.successes, SetOf(uids)) && e.queue == d.queue && e.failed == d.failed
      && e.payloads == d.payloads && SameTrace(d, e) && reply.Count? && reply.n + |e.successes| == |d.successes|
    case _ => false
  }

  /** One call, from `d` to `e`. */
  ghost predicate Does(d: Disk, op: Op, e: Disk, reply: Reply) {
    match op
    case OpSuccess(c) =>
      if Acceptable(d, c) then reply == Flag(true) && Succeeds(d, c, e) else e == d && reply == Flag(false)
    case OpFailure(u, m, p) => Fails(d, u, m, p, e) && reply == Flag(true)
    case OpFailures(batch) => FailTogether(d, batch, e) && reply == Flag(true)
    case OpRetry(u, row, front) => Retries(d, u, row, front, e, reply)
    case OpAppendFailed(u, m) =>
      && Changed(d.failed, e.failed, u, Some(m)) && e.queue == d.queue && e.successes == d.successes
      && e.payloads == d.payloads && SameTrace(d, e) && reply == Done
    case OpEnqueue(rows, front) => Enqueues(d, rows, front, e, reply)
    case OpSeedSuccesses(uids, empty) => Seeds(d, uids, empty, e, reply)
    case OpSeedCursor(k, v) =>
      if k == "" then e == d && reply == Raised
      else
        && Changed(d.cursors, e.cursors, k, Some(v)) && e.queue == d.queue && SameRecords(d, e)
        && e.attempts == d.attempts && e.nextAttempt == d.nextAttempt && reply == Done
    case OpAppendAttempt(a) => Opens(d, a, e, reply)
    case OpUpdateAttempt(id, o, at, err) => Finishes(d, id, o, at, err, e, reply)
    case _ => Trims(d, op, e, reply)
  }

  // ---- the functions do it ----

  /** Every call of the contract does what it means, whatever the state. */
  lemma ApplyDoes(d: Disk, op: Op)
    ensures Does(d, op, Apply(d, op).0, Apply(d, op).1)
  {
    match op {
      case OpSuccess(c) => SuccessDoes(d, c);
      case OpFailure(u, m, p) => FailureDoes(d, u, m, p);
      case OpFailures(batch) => BatchDoes(d, batch);
      case OpRetry(u, row, front) => RetryDoes(d, u, row, front);
      case OpEnqueue(rows, front) => EnqueueDoes(d, rows, front);
      case OpSeedSuccesses(uids, empty) => SeedDoes(d, uids, empty);
      case OpAppendFailed(_, _) => RecordDoes(d, op);
      case OpSeedCursor(_, _) => RecordDoes(d, op);
      case OpAppendAttempt(_) => RecordDoes(d, op);
      case OpUpdateAttempt(_, _, _, _) => RecordDoes(d, op);
      case _ => TrimDoes(d, op);
    }
  }

  lemma RecordDoes(d: Disk, op: Op)
    requires op.OpAppendFailed? || op.OpSeedCursor? || op.OpAppendAttempt? || op.OpUpdateAttempt?
    ensures Does(d, op, Apply(d, op).0, Apply(d, op).1)
  {
  }

  lemma FailureDoes(d: Disk, u: Uid, m: Meta, payload: Option<Payload>)
    ensures Fails(d, u, m, payload, d.CommitFailure(u, m, payload))
  {
    WithoutLoses(d.queue, {u});
  }

  lemma JoinBoth(part: seq<Row>, rest: seq<Row>)
    ensures Joined(part + rest, part, rest, true) && Joined(rest + part, part, rest, false)
  {
  }

  lemma SuccessDoes(d: Disk, c: SuccessCommit)
    ensures var (e, reply) := d.CommitSuccess(c);
      if Acceptable(d, c) then reply == Flag(true) && Succeeds(d, c, e) else e == d && reply == Flag(false)
  {
    AcceptedMeans(d, c);
    if Acceptable(d, c) {
      AcceptedSucceeds(d, c);
    }
  }

  lemma AcceptedMeans(d: Disk, c: SuccessCommit)
    ensures Acceptable(d, c) <==> d.MayFinish(c) && !d.Collides(c)
  {
    CollisionMeans(d, c);
  }

  lemma AcceptedSucceeds(d: Disk, c: SuccessCommit)
    requires d.MayFinish(c) && !d.Collides(c)
    ensures Succeeds(d, c, d.CommitSuccess(c).0)
  {
    WithoutLoses(d.queue, {c.uid});
    CursorsMove(d.cursors, c.cursors);
    JoinBoth(c.spawned, Without(d.queue, {c.uid}));
  }

  lemma CollisionMeans(d: Disk, c: SuccessCommit)
    ensures !d.Collides(c) <==>
      && (forall i, j :: 0 <= i < j < |c.spawned| ==> c.spawned[i].uid != c.spawned[j].uid)
      && (forall i, j :: 0 <= i < |c.spawned| && 0 <= j < |d.queue| && c.spawned[i].uid == d.queue[j].uid ==>
            d.queue[j].uid == c.uid)
  {
    var rest := UidSet(Without(d.queue, {c.uid}));
    KeepFirstFixed(c.spawned, rest);
    WithoutUids(d.queue, {c.uid});
    if UidSet(c.spawned) !! rest {
      forall i, j | 0 <= i < |c.spawned| && 0 <= j < |d.queue| && c.spawned[i].uid == d.queue[j].uid
        ensures d.queue[j].uid == c.uid
      {
        assert c.spawned[i] in c.spawned && d.queue[j] in d.queue;
        assert c.spawned[i].uid in UidSet(c.spawned);
      }
    } else {
      var u :| u in UidSet(c.spawned) && u in rest;
      UidOfSome(c.spawned, u);
      UidOfSome(d.queue, u);
    }
  }

  lemma BatchDoes(d: Disk, batch: seq<(Uid, Meta)>)
    ensures FailTogether(d, batch, d.CommitFailures(batch))
  {
    WithoutLoses(d.queue, BatchUids(batch));
    FailAllRecords(d.failed, batch);
  }

  lemma {:induction false} FailAllRecords(failed: map<Uid, Meta>, batch: seq<(Uid, Meta)>)
    ensures Recorded(failed, batch, FailAll(failed, batch))
  {
    FailAllKeys(failed, batch);
    if batch != [] {
      var front, last := batch[..|batch| - 1], batch[|batch| - 1];
      FailAllRecords(failed, front);
      assert batch == front + [last];
      assert BatchUids(front) <= BatchUids(batch) && last.0 in BatchUids(batch);
      assert forall i :: LastOfUid(batch, i) && i < |front| ==> LastOfUid(front, i) && batch[i].0 != batch[|front|].0;
    }
  }

  lemma RetryDoes(d: Disk, u: Uid, row: Row, front: bool)
    ensures Retries(d, u, row, front, d.CommitRetry(u, row, front).0, d.CommitRetry(u, row, front).1)
  {
    var rest := Without(d.queue, {u});
    WithoutLoses(d.queue, {u});
    OtherHasUid(d.queue, u, row.uid);
    JoinBoth([row], rest);
  }

  lemma OtherHasUid(rows: seq<Row>, u: Uid, v: Uid)
    ensures v in UidSet(Without(rows, {u})) <==> v != u && exists j :: 0 <= j < |rows| && rows[j].uid == v
  {
    WithoutUids(rows, {u});
    UidOfSome(rows, v);
  }

  lemma EnqueueDoes(d: Disk, rows: seq<Row>, front: bool)
    ensures Enqueues(d, rows, front, d.Enqueue(rows, front).0, d.Enqueue(rows, front).1)
  {
    var added := KeepFirst(rows, UidSet(d.queue));
    KeepFirstsOnly(rows, UidSet(d.queue));
    JoinBoth(added, d.queue);
  }

  lemma SeedDoes(d: Disk, uids: seq<Uid>, empty: Meta)
    ensures Seeds(d, uids, empty, d.SeedSuccesses(uids, empty).0, d.SeedSuccesses(uids, empty).1)
  {
    if u :| u in uids && u in d.failed {
      var i :| 0 <= i < |uids| && uids[i] == u;
    }
  }

  lemma TrimDoes(d: Disk, op: Op)
    requires op.OpSkip? || op.OpSave? || op.OpReplace? || op.OpDeleteQueue? || op.OpDeleteFailed? ||
      op.OpDeleteSuccesses?
    ensures Trims(d, op, Apply(d, op).0, Apply(d, op).1)
  {
    match op {
      case OpSkip(u) => WithoutLoses(d.queue, {u});
      case OpSave(rows) => KeepFirstsOnly(rows, {});
      case OpReplace(compute) => KeepFirstsOnly(compute(d.queue), {});
      case OpDeleteQueue(uids) =>
        WithoutLoses(d.queue, SetOf(uids));
        WithoutShrinks(d.queue, SetOf(uids));
      case OpDeleteFailed(uids) => DropCount(d.failed, SetOf(uids));
      case OpDeleteSuccesses(uids) => DropCount(d.successes, SetOf(uids));
    }
  }

  lemma DropCount<V>(m: map<Uid, V>, gone: set<Uid>)
    ensures |m.Keys * gone| + |m - gone| == |m|
  {
    assert m.Keys == (m.Keys * gone) + (m - gone).Keys && (m.Keys * gone) !! (m - gone).Keys;
    assert |m - gone| == |(m - gone).Keys| && |m| == |m.Keys|;
  }
}
