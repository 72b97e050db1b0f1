/** The vocabulary every other module shares: job uids, queue rows and their sets. */
module Jobs {

  /** `task_type::job_id`; only equality of uids is ever used. */
  type Uid(==, !new)
  type TaskType(==, !new)
  /** Success and failure metadata: contents are never inspected. */
  type Meta(==, !new)
  type Payload(==, !new)

  datatype Option<+T> = None | Some(value: T)

  /** The scheduling fields of a snapshot: dependencies and declared resources. */
  datatype Fields = Fields(deps: seq<Uid>, resources: map<string, real>)

  /** A queue row. `Malformed` is a snapshot that `Job.from_dict` rejects: its uid is still
      known, its raw task type may be, and its scheduling fields may be readable. */
  datatype Row =
    | Job(uid: Uid, taskType: TaskType, fields: Fields, attemptNo: nat, strikes: nat, payload: Option<Payload>)
    | Malformed(uid: Uid, rawType: Option<TaskType>, raw: Option<Fields>, attemptNo: nat, strikes: nat,
                payload: Option<Payload>)
  {
    function Deps(): seq<Uid>
      requires Job?
    {
      fields.deps
    }
  }

  function UidSet(rows: seq<Row>): set<Uid> {
    set r | r in rows :: r.uid
  }

  ghost predicate DistinctUids(rows: seq<Row>) {
    forall i, j :: 0 <= i < j < |rows| ==> rows[i].uid != rows[j].uid
  }

  function SetOf(path: seq<Uid>): set<Uid> { set u | u in path }

  ghost predicate NoRepeats(path: seq<Uid>) {
    forall i, j :: 0 <= i < j < |path| ==> path[i] != path[j]
  }

  lemma AppendOne(path: seq<Uid>, u: Uid)
    ensures NoRepeats(path + [u]) <==> NoRepeats(path) && u !in path
    ensures SetOf(path + [u]) == SetOf(path) + {u}
  {
    var p := path + [u];
    assert p[|path|] == u;
    if NoRepeats(p) {
      forall i | 0 <= i < |path| ensures path[i] != u {
        assert p[i] != p[|path|];
      }
      forall i, j | 0 <= i < j < |path| ensures path[i] != path[j] {
        assert p[i] != p[j];
      }
    }
  }

  /** The rows whose uid is not in `gone`, in order. */
  function Without(rows: seq<Row>, gone: set<Uid>): seq<Row> {
    if rows == [] then []
    else (if rows[0].uid in gone then [] else [rows[0]]) + Without(rows[1..], gone)
  }

  lemma WithoutUids(rows: seq<Row>, gone: set<Uid>)
    ensures UidSet(Without(rows, gone)) == UidSet(rows) - gone
    ensures forall r :: r in Without(rows, gone) <==> r in rows && r.uid !in gone
  {
    if rows != [] {
      WithoutUids(rows[1..], gone);
      assert rows == [rows[0]] + rows[1..];
      var rest := Without(rows[1..], gone);
      forall r ensures r in Without(rows, gone) <==> r in rows && r.uid !in gone {
        assert r in Without(rows, gone) <==> (r == rows[0] && r.uid !in gone) || r in rest;
      }
    }
  }

  lemma WithoutDistinct(rows: seq<Row>, gone: set<Uid>)
    requires DistinctUids(rows)
    ensures DistinctUids(Without(rows, gone))
  {
    if rows != [] {
      WithoutDistinct(rows[1..], gone);
      WithoutUids(rows[1..], gone);
      var rest := Without(rows[1..], gone);
      forall k | 0 <= k < |rest| ensures rest[k].uid != rows[0].uid {
        assert rest[k] in rest;
      }
    }
  }

  lemma WithoutShrinks(rows: seq<Row>, gone: set<Uid>)
    ensures |Without(rows, gone)| <= |rows|
    ensures UidSet(rows) * gone != {} ==> |Without(rows, gone)| < |rows|
    ensures UidSet(rows) * gone == {} ==> Without(rows, gone) == rows
  {
    if rows != [] {
      WithoutShrinks(rows[1..], gone);
      assert UidSet(rows) == {rows[0].uid} + UidSet(rows[1..]) by {
        assert rows == [rows[0]] + rows[1..];
      }
      assert UidSet(rows[1..]) <= UidSet(rows);
      if UidSet(rows) * gone == {} {
        assert rows[0].uid !in UidSet(rows) * gone;
        assert rows[0].uid in UidSet(rows);
        assert UidSet(rows[1..]) * gone == {};
        assert [rows[0]] + rows[1..] == rows;
      } else if rows[0].uid !in gone {
        var u :| u in UidSet(rows) * gone;
        assert u in UidSet(rows[1..]) * gone;
      }
    }
  }

  lemma WithoutAppend(a: seq<Row>, b: seq<Row>, gone: set<Uid>)
    ensures Without(a + b, gone) == Without(a, gone) + Without(b, gone)
  {
    if a == [] {
      assert a + b == b;
    } else {
      var head := if a[0].uid in gone then [] else [a[0]];
      assert Without(a + b, gone) == head + Without(a[1..] + b, gone) by { assert (a + b)[1..] == a[1..] + b; }
      WithoutAppend(a[1..], b, gone);
    }
  }

  /** `kept` is `all` read at `positions`, from front to back. */
  ghost predicate ReadOff<T>(all: seq<T>, positions: seq<nat>, kept: seq<T>) {
    && |kept| == |positions|
    && (forall k :: 0 <= k < |positions| ==> positions[k] < |all| && kept[k] == all[positions[k]])
    && forall j, k :: 0 <= j < k < |positions| ==> positions[j] < positions[k]
  }

  lemma ReadOffMore<T>(all: seq<T>, last: T, positions: seq<nat>, kept: seq<T>)
    requires ReadOff(all, positions, kept)
    ensures ReadOff(all + [last], positions, kept)
    ensures ReadOff(all + [last], positions + [|all|], kept + [last])
  {
  }

  lemma {:induction false} WithoutReadsOff(rows: seq<Row>, gone: set<Uid>) returns (positions: seq<nat>)
    ensures ReadOff(rows, positions, Without(rows, gone))
    ensures forall i :: i in positions <==> 0 <= i < |rows| && rows[i].uid !in gone
  {
    if rows == [] {
      positions := [];
    } else {
      var front, row := rows[..|rows| - 1], rows[|rows| - 1];
      assert rows == front + [row];
      positions := WithoutReadsOff(front, gone);
      WithoutAppend(front, [row], gone);
      ReadOffMore(front, row, positions, Without(front, gone));
      if row.uid !in gone {
        positions := positions + [|front|];
      }
    }
  }

  lemma UidSetAppend(a: seq<Row>, b: seq<Row>)
    ensures UidSet(a + b) == UidSet(a) + UidSet(b)
  {
    forall u | u in UidSet(a) + UidSet(b) ensures u in UidSet(a + b) {
      var r :| (r in a || r in b) && r.uid == u;
      assert r in a + b;
    }
  }

  /** Taking one row out of a queue of distinct uids takes its uid out. */
  lemma PopUids(rows: seq<Row>, i: nat)
    requires DistinctUids(rows) && i < |rows|
    ensures var rest := rows[..i] + rows[i + 1..];
      DistinctUids(rest) && UidSet(rest) == UidSet(rows) - {rows[i].uid} && rows[i].uid in UidSet(rows)
  {
    var row, rest := rows[i], rows[..i] + rows[i + 1..];
    assert rows == rows[..i] + [row] + rows[i + 1..];
    UidSetAppend(rows[..i], rows[i + 1..]);
    UidSetAppend(rows[..i] + [row], rows[i + 1..]);
    UidSetAppend(rows[..i], [row]);
    assert UidSet([row]) == {row.uid} by { assert row in [row]; }
    forall k | 0 <= k < |rest| ensures rest[k].uid != row.uid {
      assert rest[k] == rows[if k < i then k else k + 1];
    }
  }
}
