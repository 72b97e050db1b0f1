/** Terminal skips: the closure of the skip rules over dependants, removed one committed job at
    a time, dependants before what they depend on. */
module Skips {
  import opened Jobs
  import opened Graphs
  import opened State
  import opened Disk
  import opened Standstill
  import opened Mirror
  import opened Store
  import opened Recovery

  /** The parseable rows by uid; on a repeated uid the later row wins. */
  function ParsedRows(queue: seq<Row>): map<Uid, Row> {
    if queue == [] then map[]
    else
      var rest, row := ParsedRows(queue[..|queue| - 1]), queue[|queue| - 1];
      if row.Job? then rest[row.uid := row] else rest
  }

  lemma ParsedRowsMatchFacts(queue: seq<Row>)
    ensures ParsedRows(queue).Keys == Facts(queue).Keys
    ensures forall u :: u in ParsedRows(queue) ==>
      var r := ParsedRows(queue)[u];
      r in queue && r.Job? && r.uid == u && Facts(queue)[u] == Fact(r.taskType, r.Deps())
  {
    if queue != [] {
      var front, row := queue[..|queue| - 1], queue[|queue| - 1];
      ParsedRowsMatchFacts(front);
      assert queue == front + [row];
    }
  }

  lemma KnownUids(queue: seq<Row>)
    ensures ParsedRows(queue).Keys == Facts(queue).Keys <= UidSet(queue)
  {
    ParsedRowsMatchFacts(queue);
    FactsMatchGraph(queue);
  }

  lemma KnownRow(queue: seq<Row>, u: Uid)
    requires u in Facts(queue)
    ensures u in ParsedRows(queue) && u in UidSet(queue)
    ensures var r := ParsedRows(queue)[u]; r.Job? && r.uid == u && Facts(queue)[u] == Fact(r.taskType, r.Deps())
  {
    ParsedRowsMatchFacts(queue);
  }

  function FactGraph(f: map<Uid, Fact>): Graph {
    map u | u in f :: SetOf(f[u].deps)
  }

  /** Jobs a skip rule names, and jobs that depend on one already skipped in this run. */
  function Seeds(sel: Selection, f: map<Uid, Fact>, skipped: set<Uid>): set<Uid> {
    set u | u in f && (sel.IsSkipped(f[u].taskType) || exists d :: d in f[u].deps && d in skipped)
  }

  /** A seed is named by a skip rule, or depends on a job already skipped. */
  lemma SeedsMean(sel: Selection, f: map<Uid, Fact>, skipped: set<Uid>, u: Uid)
    ensures u in f ==> (u in Seeds(sel, f, skipped) <==>
      (exists m :: Skip(m) in sel.rules && m(f[u].taskType)) || exists d :: d in f[u].deps && d in skipped)
    ensures Seeds(sel, f, skipped) <= f.Keys
  {
    if u in f {
      RulesDecide(sel, f[u].taskType);
    }
  }

  /** `u` is a seed or transitively depends on one. */
  ghost predicate Condemned(f: map<Uid, Fact>, seeds: set<Uid>, u: Uid) {
    exists s :: s in seeds && Reaches(FactGraph(f), u, s)
  }

  lemma CondemnedByDep(f: map<Uid, Fact>, seeds: set<Uid>, u: Uid, d: Uid)
    requires u in f && d in f && d in f[u].deps
    ensures forall s :: Reaches(FactGraph(f), d, s) ==> Reaches(FactGraph(f), u, s)
    ensures Condemned(f, seeds, d) ==> Condemned(f, seeds, u)
  {
    ReachesStep(FactGraph(f), u, d);
    forall s | Reaches(FactGraph(f), d, s) ensures Reaches(FactGraph(f), u, s) {
      ReachesTransitive(FactGraph(f), u, d, s);
    }
  }

  /** Depth zero is a seed; anything deeper was found through a dependency one level up. */
  ghost predicate Anchored(f: map<Uid, Fact>, seeds: set<Uid>, depth: map<Uid, nat>, u: Uid)
    requires u in depth && u in f
  {
    if depth[u] == 0 then u in seeds
    else exists d :: d in f[u].deps && d in depth && depth[d] == depth[u] - 1
  }

  ghost predicate AllAnchored(f: map<Uid, Fact>, seeds: set<Uid>, depth: map<Uid, nat>) {
    depth.Keys <= f.Keys && forall u {:trigger Anchored(f, seeds, depth, u)} :: u in depth ==>
      Anchored(f, seeds, depth, u)
  }

  ghost predicate RootedAt(f: map<Uid, Fact>, seeds: set<Uid>, u: Uid, root: Uid) {
    root in seeds && Reaches(FactGraph(f), u, root)
  }

  ghost predicate Rooted(f: map<Uid, Fact>, seeds: set<Uid>, rootOf: map<Uid, Uid>) {
    forall u {:trigger RootedAt(f, seeds, u, rootOf[u])} :: u in rootOf ==> RootedAt(f, seeds, u, rootOf[u])
  }

  /** The closure with its depths and roots: exactly the condemned jobs. */
  ghost predicate Closure(f: map<Uid, Fact>, seeds: set<Uid>, depth: map<Uid, nat>, rootOf: map<Uid, Uid>) {
    && depth.Keys == rootOf.Keys && Rooted(f, seeds, rootOf) && AllAnchored(f, seeds, depth)
    && (forall u :: Condemned(f, seeds, u) ==> u in depth)
  }

  lemma ClosureIsExact(f: map<Uid, Fact>, seeds: set<Uid>, depth: map<Uid, nat>, rootOf: map<Uid, Uid>, u: Uid)
    requires Closure(f, seeds, depth, rootOf)
    ensures u in depth <==> Condemned(f, seeds, u)
  {
    if u in depth {
      assert RootedAt(f, seeds, u, rootOf[u]);
    }
  }

  function Extend<V>(m: map<Uid, V>, keys: set<Uid>, v: V): (r: map<Uid, V>)
    ensures r.Keys == m.Keys + keys
    ensures forall u :: u in r ==> r[u] == if u in keys then v else m[u]
  {
    m + map c | c in keys :: v
  }

  function Children(f: map<Uid, Fact>, u: Uid): set<Uid> {
    set c | c in f && u in f[c].deps
  }

  /** The worklist: every child of a member that has left the stack is a member. */
  ghost predicate ChildClosed(f: map<Uid, Fact>, stack: set<Uid>, members: set<Uid>) {
    forall u :: u in members && u !in stack ==> Children(f, u) <= members
  }

  ghost predicate Growing(f: map<Uid, Fact>, seeds: set<Uid>, stack: set<Uid>, depth: map<Uid, nat>,
                          rootOf: map<Uid, Uid>)
  {
    && seeds <= depth.Keys == rootOf.Keys && stack <= depth.Keys
    && Rooted(f, seeds, rootOf) && AllAnchored(f, seeds, depth) && ChildClosed(f, stack, depth.Keys)
  }

  lemma DepthsGrow(f: map<Uid, Fact>, seeds: set<Uid>, depth: map<Uid, nat>, cur: Uid, found: set<Uid>)
    requires AllAnchored(f, seeds, depth) && cur in depth && found == Children(f, cur) - depth.Keys
    ensures AllAnchored(f, seeds, Extend(depth, found, depth[cur] + 1))
  {
    var depth' := Extend(depth, found, depth[cur] + 1);
    forall u | u in depth' ensures Anchored(f, seeds, depth', u) {
      if u in found {
        assert cur in f[u].deps && depth'[cur] == depth'[u] - 1;
      } else {
        assert Anchored(f, seeds, depth, u);
        if depth[u] != 0 {
          var d :| d in f[u].deps && d in depth && depth[d] == depth[u] - 1;
          assert depth'[d] == depth'[u] - 1;
        }
      }
    }
  }

  lemma RootsGrow(f: map<Uid, Fact>, seeds: set<Uid>, rootOf: map<Uid, Uid>, cur: Uid, found: set<Uid>)
    requires Rooted(f, seeds, rootOf) && cur in rootOf && cur in f && found <= Children(f, cur)
    ensures Rooted(f, seeds, Extend(rootOf, found, rootOf[cur]))
  {
    var rootOf' := Extend(rootOf, found, rootOf[cur]);
    assert RootedAt(f, seeds, cur, rootOf[cur]);
    forall u | u in rootOf' ensures RootedAt(f, seeds, u, rootOf'[u]) {
      if u in found {
        CondemnedByDep(f, seeds, u, cur);
      } else {
        assert RootedAt(f, seeds, u, rootOf[u]);
      }
    }
  }

  lemma ChildrenGrow(f: map<Uid, Fact>, stack: set<Uid>, members: set<Uid>, cur: Uid)
    requires ChildClosed(f, stack, members)
    ensures ChildClosed(f, (stack - {cur}) + (Children(f, cur) - members), members + (Children(f, cur) - members))
  {
    var found := Children(f, cur) - members;
    forall u | u in members + found && u !in (stack - {cur}) + found ensures Children(f, u) <= members + found {
      assert u == cur || Children(f, u) <= members;
    }
  }

  /** One turn: take a member off the stack and put its new children on. */
  lemma GrowKeeps(f: map<Uid, Fact>, seeds: set<Uid>, stack: set<Uid>, depth: map<Uid, nat>, rootOf: map<Uid, Uid>,
                  cur: Uid)
    requires Growing(f, seeds, stack, depth, rootOf) && cur in stack
    ensures var found := Children(f, cur) - depth.Keys;
      && Growing(f, seeds, (stack - {cur}) + found, Extend(depth, found, depth[cur] + 1),
                 Extend(rootOf, found, rootOf[cur]))
      && found <= f.Keys && found !! depth.Keys
  {
    var found := Children(f, cur) - depth.Keys;
    DepthsGrow(f, seeds, depth, cur, found);
    RootsGrow(f, seeds, rootOf, cur, found);
    ChildrenGrow(f, stack, depth.Keys, cur);
  }

  lemma GrownIsClosed(f: map<Uid, Fact>, seeds: set<Uid>, depth: map<Uid, nat>, rootOf: map<Uid, Uid>)
    requires Growing(f, seeds, {}, depth, rootOf)
    ensures Closure(f, seeds, depth, rootOf)
  {
    forall u | Condemned(f, seeds, u) ensures u in depth {
      var s :| s in seeds && Reaches(FactGraph(f), u, s);
      var w :| Walk(FactGraph(f), w) && w[0] == u && w[|w| - 1] == s;
      ClosedUpWalk(f, depth, w, 0);
    }
  }

  lemma ClosedUpWalk(f: map<Uid, Fact>, depth: map<Uid, nat>, w: seq<Uid>, i: nat)
    requires ChildClosed(f, {}, depth.Keys)
    requires Walk(FactGraph(f), w) && w[|w| - 1] in depth && i < |w|
    ensures w[i] in depth
    decreases |w| - i
  {
    if i < |w| - 1 {
      ClosedUpWalk(f, depth, w, i + 1);
      assert w[i] in Children(f, w[i + 1]);
    }
  }

  lemma StackShrinks(nodes: set<Uid>, members: set<Uid>, stack: set<Uid>, cur: Uid, found: set<Uid>)
    requires cur in stack && found <= nodes && found !! members
    ensures nodes - (members + found) < nodes - members ||
      (members + found == members && (stack - {cur}) + found < stack)
  {
    if found != {} {
      var c :| c in found;
      assert c in nodes - members;
    }
  }

  lemma SeedsRooted(f: map<Uid, Fact>, seeds: set<Uid>, rootOf: map<Uid, Uid>)
    requires seeds <= f.Keys && rootOf.Keys == seeds && forall u :: u in seeds ==> rootOf[u] == u
    ensures Rooted(f, seeds, rootOf)
  {
    forall u | u in seeds ensures Reaches(FactGraph(f), u, u) {
      ReachesSelf(FactGraph(f), u);
    }
  }

  method Close(f: map<Uid, Fact>, seeds: set<Uid>) returns (depth: map<Uid, nat>, rootOf: map<Uid, Uid>)
    requires seeds <= f.Keys
    ensures Closure(f, seeds, depth, rootOf)
  {
    depth, rootOf := map u | u in seeds :: 0, map u | u in seeds :: u;
    SeedsRooted(f, seeds, rootOf);
    var stack := seeds;
    while stack != {}
      invariant Growing(f, seeds, stack, depth, rootOf)
      decreases f.Keys - depth.Keys, stack
    {
      var cur :| cur in stack;
      GrowKeeps(f, seeds, stack, depth, rootOf, cur);
      var found := Children(f, cur) - depth.Keys;
      StackShrinks(f.Keys, depth.Keys, stack, cur, found);
      stack := (stack - {cur}) + found;
      depth, rootOf := Extend(depth, found, depth[cur] + 1), Extend(rootOf, found, rootOf[cur]);
    }
    GrownIsClosed(f, seeds, depth, rootOf);
  }

  /** The removal order: deepest first. */
  ghost predicate DeepestFirst(depth: map<Uid, nat>, order: seq<Uid>) {
    && NoRepeats(order) && SetOf(order) == depth.Keys
    && forall i, j :: 0 <= i < j < |order| && order[i] in depth && order[j] in depth ==>
      depth[order[i]] >= depth[order[j]]
  }

  ghost predicate Planned(f: map<Uid, Fact>, seeds: set<Uid>, depth: map<Uid, nat>, rootOf: map<Uid, Uid>,
                          order: seq<Uid>)
  {
    Closure(f, seeds, depth, rootOf) && DeepestFirst(depth, order)
  }

  /** The order of uids: total, as that of strings. */
  ghost predicate TotalOrder(less: (Uid, Uid) -> bool) {
    && (forall a, b :: a != b ==> less(a, b) != less(b, a))
    && (forall a, b, c :: less(a, b) && less(b, c) ==> less(a, c))
  }

  /** Deeper first, and on one level by uid. */
  predicate Sooner(depth: map<Uid, nat>, less: (Uid, Uid) -> bool, u: Uid, v: Uid)
    requires u in depth && v in depth
  {
    depth[u] > depth[v] || (depth[u] == depth[v] && less(u, v))
  }

  ghost predicate Sorted(depth: map<Uid, nat>, less: (Uid, Uid) -> bool, order: seq<Uid>) {
    forall i, j :: 0 <= i < j < |order| && order[i] in depth && order[j] in depth ==>
      Sooner(depth, less, order[i], order[j])
  }

  method SortByDepth(depth: map<Uid, nat>, less: (Uid, Uid) -> bool) returns (order: seq<Uid>)
    requires TotalOrder(less)
    ensures DeepestFirst(depth, order) && Sorted(depth, less, order)
    ensures forall i, j :: 0 <= i < j < |order| && order[i] in depth && order[j] in depth ==>
      depth[order[i]] >= depth[order[j]] && (depth[order[i]] == depth[order[j]] ==> less(order[i], order[j]))
  {
    order := [];
    var todo := depth.Keys;
    while todo != {}
      invariant todo <= depth.Keys && SetOf(order) == depth.Keys - todo && NoRepeats(order)
      invariant forall i, u :: 0 <= i < |order| && u in todo && order[i] in depth ==> Sooner(depth, less, order[i], u)
      invariant Sorted(depth, less, order)
    {
      var u := Soonest(depth, less, todo);
      assert u !in SetOf(order);
      AppendOne(order, u);
      order, todo := order + [u], todo - {u};
    }
  }

  method Soonest(depth: map<Uid, nat>, less: (Uid, Uid) -> bool, s: set<Uid>) returns (u: Uid)
    requires s != {} && s <= depth.Keys && TotalOrder(less)
    ensures u in s && forall v :: v in s && v != u ==> Sooner(depth, less, u, v)
  {
    u :| u in s;
    var todo := s - {u};
    while todo != {}
      invariant u in s && u !in todo && todo <= s && forall v :: v in s && v !in todo && v != u ==>
        Sooner(depth, less, u, v)
    {
      var v :| v in todo;
      todo := todo - {v};
      if Sooner(depth, less, v, u) { u := v; }
    }
  }

  // ---- what a crash in the middle leaves behind ----

  /** Every remaining job that was a seed only because it depends on a remembered skip reaches,
      through remaining jobs, a remaining job that a rule names. */
  ghost predicate Renewed(sel: Selection, f: map<Uid, Fact>, skipped: set<Uid>, gone: set<Uid>) {
    forall s {:trigger Remembered(sel, f, skipped, s)} :: Remembered(sel, f, skipped, s) && s !in gone ==>
      exists t :: t in f && t !in gone && sel.IsSkipped(f[t].taskType) && Reaches(FactGraph(f - gone), s, t)
  }

  /** A seed by memory alone. */
  ghost predicate Remembered(sel: Selection, f: map<Uid, Fact>, skipped: set<Uid>, s: Uid) {
    s in f && !sel.IsSkipped(f[s].taskType) && exists d :: d in f[s].deps && d in skipped
  }

  /** After any prefix of the removals, starting over with nothing remembered condemns exactly
      the jobs not removed yet, if and only if every remaining seed by memory alone is renewed. */
  lemma PrefixLeavesRest(sel: Selection, f: map<Uid, Fact>, skipped: set<Uid>, depth: map<Uid, nat>,
                         rootOf: map<Uid, Uid>, order: seq<Uid>, k: nat)
    requires Closure(f, Seeds(sel, f, skipped), depth, rootOf) && DeepestFirst(depth, order) && k <= |order|
    ensures var gone := SetOf(order[..k]);
      (forall u :: Condemned(f - gone, Seeds(sel, f - gone, {}), u) <==> u in depth && u !in gone) <==>
        Renewed(sel, f, skipped, gone)
  {
    var gone := SetOf(order[..k]);
    var again := Seeds(sel, f - gone, {});
    SeedsDecide(sel, f, skipped, depth, rootOf, order, k);
    forall s | s in Seeds(sel, f, skipped) && s !in gone && !Remembered(sel, f, skipped, s)
      ensures Condemned(f - gone, again, s)
    {
      ReachesSelf(FactGraph(f - gone), s);
      assert s in again;
    }
    forall s | Remembered(sel, f, skipped, s) && s !in gone
      ensures Condemned(f - gone, again, s) <==>
        exists t :: t in f && t !in gone && sel.IsSkipped(f[t].taskType) && Reaches(FactGraph(f - gone), s, t)
    {
      if t :| t in f && t !in gone && sel.IsSkipped(f[t].taskType) && Reaches(FactGraph(f - gone), s, t) {
        assert t in again;
      }
    }
  }

  /** Starting over, it is the remaining seeds that decide. */
  lemma SeedsDecide(sel: Selection, f: map<Uid, Fact>, skipped: set<Uid>, depth: map<Uid, nat>, rootOf: map<Uid, Uid>,
                    order: seq<Uid>, k: nat)
    requires Closure(f, Seeds(sel, f, skipped), depth, rootOf) && DeepestFirst(depth, order) && k <= |order|
    ensures var gone := SetOf(order[..k]);
      (forall u :: Condemned(f - gone, Seeds(sel, f - gone, {}), u) <==> u in depth && u !in gone) <==>
      forall s :: s in Seeds(sel, f, skipped) && s !in gone ==> Condemned(f - gone, Seeds(sel, f - gone, {}), s)
  {
    var gone := SetOf(order[..k]);
    var f', again := f - gone, Seeds(sel, f - gone, {});
    var seeds := Seeds(sel, f, skipped);
    forall s | s in seeds ensures s in depth {
      ReachesSelf(FactGraph(f), s);
      assert Condemned(f, seeds, s);
    }
    forall u | Condemned(f', again, u) ensures u in depth && u !in gone {
      StillCondemned(sel, f, skipped, gone, u);
    }
    if forall s :: s in seeds && s !in gone ==> Condemned(f', again, s) {
      forall u | u in depth && u !in gone ensures Condemned(f', again, u) {
        RestClimbs(f, seeds, depth, order, k, again, u);
      }
    }
  }

  lemma StillCondemned(sel: Selection, f: map<Uid, Fact>, skipped: set<Uid>, gone: set<Uid>, u: Uid)
    requires Condemned(f - gone, Seeds(sel, f - gone, {}), u)
    ensures Condemned(f, Seeds(sel, f, skipped), u) && u !in gone
  {
    var s :| s in Seeds(sel, f - gone, {}) && Reaches(FactGraph(f - gone), u, s);
    var w :| Walk(FactGraph(f - gone), w) && w[0] == u && w[|w| - 1] == s;
    assert Walk(FactGraph(f), w) && s in Seeds(sel, f, skipped) && w[0] in f - gone;
  }

  /** Up from an undeleted member, its anchors are undeleted too. */
  lemma {:induction false} RestClimbs(f: map<Uid, Fact>, seeds: set<Uid>, depth: map<Uid, nat>, order: seq<Uid>, k: nat,
                                      again: set<Uid>, u: Uid)
    requires AllAnchored(f, seeds, depth)
    requires DeepestFirst(depth, order) && k <= |order| && u in depth && u !in SetOf(order[..k])
    requires forall s :: s in seeds && s !in SetOf(order[..k]) ==> Condemned(f - SetOf(order[..k]), again, s)
    ensures Condemned(f - SetOf(order[..k]), again, u)
    decreases depth[u]
  {
    assert Anchored(f, seeds, depth, u);
    if depth[u] > 0 {
      var d :| d in f[u].deps && d in depth && depth[d] == depth[u] - 1;
      ShallowerIsLater(depth, order, k, u, d);
      RestClimbs(f, seeds, depth, order, k, again, d);
      CondemnedByDep(f - SetOf(order[..k]), again, u, d);
    }
  }

  lemma ShallowerIsLater(depth: map<Uid, nat>, order: seq<Uid>, k: nat, u: Uid, d: Uid)
    requires DeepestFirst(depth, order) && k <= |order| && u in depth && d in depth && depth[d] < depth[u]
    requires u !in SetOf(order[..k])
    ensures d !in SetOf(order[..k])
  {
    assert u in SetOf(order);
    var i :| 0 <= i < |order| && order[i] == u;
    assert forall j :: 0 <= j < k ==> order[..k][j] in SetOf(order[..k]);
    assert i >= k by {
      assert forall j :: 0 <= j < k ==> order[..k][j] == order[j];
    }
    forall j | 0 <= j < k ensures order[..k][j] != d {
      assert order[j] in SetOf(order);
    }
  }

  /** A run that had skipped nothing before always meets the condition. */
  lemma FreshPrefixLeavesRest(sel: Selection, f: map<Uid, Fact>, depth: map<Uid, nat>, rootOf: map<Uid, Uid>,
                              order: seq<Uid>, k: nat, u: Uid)
    requires Closure(f, Seeds(sel, f, {}), depth, rootOf) && DeepestFirst(depth, order) && k <= |order|
    ensures var gone := SetOf(order[..k]);
      Condemned(f - gone, Seeds(sel, f - gone, {}), u) <==> u in depth && u !in gone
  {
    PrefixLeavesRest(sel, f, {}, depth, rootOf, order, k);
  }

  // ---- the removals ----

  /** Both queues without the jobs in `gone`. */
  function Purged(w: World, gone: set<Uid>): World {
    World(w.disk.(queue := Without(w.disk.queue, gone)),
          w.mem.(queue := Without(w.mem.queue, gone), inFlight := w.mem.inFlight - gone))
  }

  lemma WithoutTwice(rows: seq<Row>, a: set<Uid>, b: set<Uid>)
    ensures Without(Without(rows, a), b) == Without(rows, a + b)
  {
    if rows != [] {
      WithoutTwice(rows[1..], a, b);
      var rest := Without(rows[1..], a);
      if rows[0].uid !in a {
        assert ([rows[0]] + rest)[1..] == rest;
      } else {
        assert [] + rest == rest;
      }
    }
  }

  lemma PurgeOne(w: World, gone: set<Uid>, u: Uid)
    ensures ApplySkip(Purged(w, gone), u, None, Faults(false, false, false, _ => false)).0 == Purged(w, gone + {u})
  {
    WithoutTwice(w.disk.queue, gone, {u});
    WithoutTwice(w.mem.queue, gone, {u});
    assert w.mem.inFlight - gone - {u} == w.mem.inFlight - (gone + {u});
  }

  /** Why a job was skipped: a rule names it, or an upstream job was skipped. */
  datatype Audit = ByRule(uid: Uid) | ByUpstream(uid: Uid, root: Uid)

  function AuditOf(sel: Selection, f: map<Uid, Fact>, rootOf: map<Uid, Uid>, u: Uid): Audit {
    if u in f && sel.IsSkipped(f[u].taskType) then ByRule(u)
    else ByUpstream(u, if u in rootOf then rootOf[u] else u)
  }

  /** What a removal is put down to: its own rule, or else a seed it transitively depends on. */
  lemma AuditMeans(sel: Selection, f: map<Uid, Fact>, seeds: set<Uid>, depth: map<Uid, nat>, rootOf: map<Uid, Uid>,
                   u: Uid)
    requires Closure(f, seeds, depth, rootOf) && u in depth
    ensures AuditOf(sel, f, rootOf, u) == ByRule(u) <==> exists m :: Skip(m) in sel.rules && m(f[u].taskType)
    ensures AuditOf(sel, f, rootOf, u) != ByRule(u) ==> exists root ::
      AuditOf(sel, f, rootOf, u) == ByUpstream(u, root) && root in seeds && Reaches(FactGraph(f), u, root)
  {
    RulesDecide(sel, f[u].taskType);
    assert RootedAt(f, seeds, u, rootOf[u]);
  }

  /** `audit` is the trail of the first removals of `order`. */
  ghost predicate Trail(sel: Selection, f: map<Uid, Fact>, rootOf: map<Uid, Uid>, order: seq<Uid>, audit: seq<Audit>) {
    && |audit| <= |order|
    && forall i :: 0 <= i < |audit| ==> audit[i] == AuditOf(sel, f, rootOf, order[i])
  }

  class SelectionMachine {
    const selection: Selection
    const store: StateStore
    const less: (Uid, Uid) -> bool
    var skippedUids: set<Uid>

    constructor (sel: Selection, s: StateStore, l: (Uid, Uid) -> bool)
      ensures selection == sel && store == s && less == l && skippedUids == {}
    {
      selection, store, less, skippedUids := sel, s, l, {};
    }

    method ResetRun()
      modifies this
      ensures skippedUids == {}
    {
      skippedUids := {};
    }

    /** Remove every condemned job, deepest first, each with its own commit. The first commit
        that fails puts that job's row back and crashes; the removals before it stand. */
    method ApplySkips(fault: Uid -> bool, ghost foreign: set<Uid>)
      returns (exit: Exit, audit: seq<Audit>, ghost depth: map<Uid, nat>, ghost rootOf: map<Uid, Uid>,
               ghost order: seq<Uid>)
      requires store.Valid() && Mirrors(store.Now(), foreign, {}) && TotalOrder(less)
      modifies this, store.backend, store.state
      ensures store.Valid() && Mirrors(store.Now(), foreign, {})
      ensures !selection.HasSkipRules() ==> order == []
      ensures Sorted(depth, less, order)
      ensures selection.HasSkipRules() ==>
        (var f := Facts(old(store.state.queue));
         Planned(f, Seeds(selection, f, old(skippedUids)), depth, rootOf, order) &&
         Trail(selection, f, rootOf, order, audit))
      ensures |audit| <= |order| && skippedUids == old(skippedUids) + SetOf(order[..|audit|])
      ensures Removed(old(store.Now()), order, |audit|, fault, store.Now(), exit)
    {
      ghost var w := store.Now();
      if !selection.HasSkipRules() {
        PurgeNothing(w);
        exit, audit, depth, rootOf, order := Returned, [], map[], map[], [];
        assert SetOf(order) == {} && SetOf(order[..0]) == {};
        return;
      }
      var rows := ReadRows(store.state.queue);
      var f := FactsOf(rows, store.state.queue);
      var seeds := Seeds(selection, f, skippedUids);
      var levels, roots, plan := MakePlan(f, seeds);
      depth, rootOf, order := levels, roots, plan;
      KnownUids(w.mem.queue);
      exit, audit := Remove(rows, f, seeds, roots, plan, fault, foreign);
      RemovedMirrors(w, order, |audit|, fault, store.Now(), exit, foreign);
    }

    static method ReadRows(queue: seq<Row>) returns (rows: map<Uid, Row>)
      ensures rows == ParsedRows(queue)
    {
      rows := map[];
      for i := 0 to |queue|
        invariant rows == ParsedRows(queue[..i])
      {
        assert queue[..i + 1][..i] == queue[..i];
        if queue[i].Job? {
          rows := rows[queue[i].uid := queue[i]];
        }
      }
      assert queue[..|queue|] == queue;
    }

    static method FactsOf(rows: map<Uid, Row>, ghost queue: seq<Row>) returns (f: map<Uid, Fact>)
      requires rows == ParsedRows(queue)
      ensures f == Facts(queue)
    {
      ParsedRowsMatchFacts(queue);
      f := map u | u in rows :: Fact(rows[u].taskType, rows[u].Deps());
    }

    method MakePlan(f: map<Uid, Fact>, seeds: set<Uid>)
      returns (depth: map<Uid, nat>, rootOf: map<Uid, Uid>, order: seq<Uid>)
      requires seeds <= f.Keys && TotalOrder(less)
      ensures Planned(f, seeds, depth, rootOf, order) && Sorted(depth, less, order)
    {
      depth, rootOf := Close(f, seeds);
      order := SortByDepth(depth, less);
    }

    /** The removals, one commit each. */
    method Remove(rows: map<Uid, Row>, f: map<Uid, Fact>, seeds: set<Uid>, rootOf: map<Uid, Uid>, order: seq<Uid>,
                  fault: Uid -> bool, ghost foreign: set<Uid>)
      returns (exit: Exit, audit: seq<Audit>)
      requires store.Valid() && Mirrors(store.Now(), foreign, {})
      requires rows == ParsedRows(store.state.queue) && f == Facts(store.state.queue)
      requires seeds == Seeds(selection, f, skippedUids)
      requires NoRepeats(order) && SetOf(order) == rootOf.Keys &&
        rootOf.Keys <= f.Keys <= store.state.View().QueueUids()
      modifies this, store.backend, store.state
      ensures store.Valid()
      ensures Trail(selection, f, rootOf, order, audit)
      ensures skippedUids == old(skippedUids) + SetOf(order[..|audit|])
      ensures Removed(old(store.Now()), order, |audit|, fault, store.Now(), exit)
    {
      ghost var w := store.Now();
      ghost var before := skippedUids;
      exit, audit := Returned, [];
      PurgeNothing(w);
      assert SetOf(order[..0]) == {};
      while |audit| < |order| && exit == Returned
        invariant store.Valid() && Going(w, f, rootOf, order, fault, audit, exit, store.Now())
        invariant skippedUids == before + SetOf(order[..|audit|])
        decreases |order| - |audit|, exit == Returned
      {
        exit, audit := Turn(w, rows, f, seeds, before, rootOf, order, fault, audit, foreign);
      }
      assert order[..|order|] == order;
    }

    ghost predicate Going(w: World, f: map<Uid, Fact>, rootOf: map<Uid, Uid>, order: seq<Uid>, fault: Uid -> bool,
                          audit: seq<Audit>, exit: Exit, after: World)
    {
      Trail(selection, f, rootOf, order, audit) && RemovedSoFar(w, order, |audit|, fault, after, exit)
    }

    /** One turn of the removal loop. */
    method Turn(ghost w: World, rows: map<Uid, Row>, f: map<Uid, Fact>, seeds: set<Uid>, ghost skipped: set<Uid>,
                rootOf: map<Uid, Uid>, order: seq<Uid>, fault: Uid -> bool, audit0: seq<Audit>, ghost foreign: set<Uid>)
      returns (exit: Exit, audit: seq<Audit>)
      requires store.Valid() && Mirrors(w, foreign, {}) && SetOf(order) <= w.mem.QueueUids()
      requires rows == ParsedRows(w.mem.queue) && f == Facts(w.mem.queue) && seeds == Seeds(selection, f, skipped)
      requires NoRepeats(order) && SetOf(order) == rootOf.Keys && rootOf.Keys <= f.Keys
      requires |audit0| < |order| && Going(w, f, rootOf, order, fault, audit0, Returned, store.Now())
      requires skippedUids == skipped + SetOf(order[..|audit0|])
      modifies this, store.backend, store.state
      ensures store.Valid() && Going(w, f, rootOf, order, fault, audit, exit, store.Now())
      ensures skippedUids == skipped + SetOf(order[..|audit|])
      ensures |audit| == if exit == Returned then |audit0| + 1 else |audit0|
    {
      PrefixGrows(order, |audit0|);
      var u := order[|audit0|];
      var why;
      exit, why := RemoveOne(w, rows, f, seeds, skipped, rootOf, SetOf(order[..|audit0|]), u, fault(u), foreign);
      TurnKeeps(w, f, rootOf, order, fault, audit0, exit, why, store.Now());
      audit := if exit == Returned then audit0 + [why] else audit0;
    }

    lemma TurnKeeps(w: World, f: map<Uid, Fact>, rootOf: map<Uid, Uid>, order: seq<Uid>, fault: Uid -> bool,
                    audit0: seq<Audit>, exit: Exit, why: Audit, after: World)
      requires |audit0| < |order| && NoRepeats(order) && Trail(selection, f, rootOf, order, audit0)
      requires why == AuditOf(selection, f, rootOf, order[|audit0|])
      requires exit == Returned ==> after == Purged(w, SetOf(order[..|audit0|]) + {order[|audit0|]})
      requires exit != Returned ==> exit == CrashSignal && fault(order[|audit0|])
      requires exit != Returned ==> Interrupted(w, SetOf(order[..|audit0|]), order[|audit0|], after)
      ensures Going(w, f, rootOf, order, fault, if exit == Returned then audit0 + [why] else audit0, exit, after)
    {
      PrefixGrows(order, |audit0|);
      if exit == Returned {
        TrailGrows(selection, f, rootOf, order, audit0, why);
      }
    }

    /** One removal, the jobs in `gone` having been removed from `w` before. */
    method RemoveOne(ghost w: World, rows: map<Uid, Row>, f: map<Uid, Fact>, seeds: set<Uid>, ghost skipped: set<Uid>,
                     rootOf: map<Uid, Uid>, ghost gone: set<Uid>, u: Uid, fault: bool, ghost foreign: set<Uid>)
      returns (exit: Exit, why: Audit)
      requires store.Valid() && store.Now() == Purged(w, gone) && Mirrors(w, foreign, {}) && gone <= w.mem.QueueUids()
      requires rows == ParsedRows(w.mem.queue) && f == Facts(w.mem.queue) && seeds == Seeds(selection, f, skipped)
      requires u in f && u in rootOf && u !in gone
      modifies this, store.backend, store.state
      ensures store.Valid() && why == AuditOf(selection, f, rootOf, u)
      ensures exit == Returned ==> store.Now() == Purged(w, gone + {u}) && skippedUids == old(skippedUids) + {u}
      ensures exit != Returned ==>
        exit == CrashSignal && fault && Interrupted(w, gone, u, store.Now()) && skippedUids == old(skippedUids)
    {
      KnownRow(w.mem.queue, u);
      var row := rows[u];
      why := if u in seeds && selection.IsSkipped(row.taskType) then ByRule(u) else ByUpstream(u, rootOf[u]);
      exit := Commit(w, row, gone, u, fault, foreign);
      if exit == Returned {
        skippedUids := skippedUids + {u};
      }
    }

    method Commit(ghost w: World, row: Row, ghost gone: set<Uid>, u: Uid, fault: bool, ghost foreign: set<Uid>)
      returns (exit: Exit)
      requires store.Valid() && store.Now() == Purged(w, gone) && Mirrors(w, foreign, {}) && gone <= w.mem.QueueUids()
      requires u in ParsedRows(w.mem.queue) && row == ParsedRows(w.mem.queue)[u] && u !in gone
      modifies store.backend, store.state
      ensures store.Valid()
      ensures exit == Returned ==> store.Now() == Purged(w, gone + {u})
      ensures exit != Returned ==> exit == CrashSignal && fault && Interrupted(w, gone, u, store.Now())
    {
      RemovableRow(w, gone, u, foreign);
      PurgeOne(w, gone, u);
      exit := store.ApplySkip(u, Some(row), Faults(fault, false, false, _ => false), foreign);
    }
  }

  lemma RemovableRow(w: World, gone: set<Uid>, u: Uid, foreign: set<Uid>)
    requires Mirrors(w, foreign, {}) && gone <= w.mem.QueueUids() && u in ParsedRows(w.mem.queue) && u !in gone
    ensures Mirrors(Purged(w, gone), foreign, {u}) && ParsedRows(w.mem.queue)[u].uid == u
  {
    PurgedMirrors(w, gone, foreign);
    RowStays(w.mem.queue, gone, u);
    QueuedIsLimbo(Purged(w, gone), u, foreign);
  }

  /** A queued job may as well be counted as being in the middle of a transition. */
  lemma QueuedIsLimbo(w: World, u: Uid, foreign: set<Uid>)
    requires Mirrors(w, foreign, {}) && u in w.mem.QueueUids()
    ensures Mirrors(w, foreign, {u})
  {
  }

  /** Removing queued jobs from both queues keeps the mirror. */
  lemma PurgedMirrors(w: World, gone: set<Uid>, foreign: set<Uid>)
    requires Mirrors(w, foreign, {}) && gone <= w.mem.QueueUids()
    ensures Mirrors(Purged(w, gone), foreign, {}) && Purged(w, gone).mem.inFlight == w.mem.inFlight
  {
    WithoutDistinct(w.disk.queue, gone);
    WithoutUids(w.disk.queue, gone);
    WithoutUids(w.mem.queue, gone);
  }

  lemma RemovedMirrors(w: World, order: seq<Uid>, n: nat, fault: Uid -> bool, after: World, exit: Exit,
                       foreign: set<Uid>)
    requires Mirrors(w, foreign, {}) && SetOf(order) <= w.mem.QueueUids() && n <= |order|
    requires Removed(w, order, n, fault, after, exit)
    ensures Mirrors(after, foreign, {})
  {
    var gone := SetOf(order[..n]);
    assert gone <= SetOf(order);
    assert order[..|order|] == order;
    PurgedMirrors(w, gone, foreign);
    if exit == CrashSignal {
      InterruptedMirrors(w, gone, order[n], after, foreign);
    }
  }

  lemma RowStays(queue: seq<Row>, gone: set<Uid>, u: Uid)
    requires u in ParsedRows(queue) && u !in gone
    ensures u in UidSet(Without(queue, gone)) && ParsedRows(queue)[u].uid == u
  {
    ParsedRowsMatchFacts(queue);
    WithoutUids(queue, gone);
  }

  lemma InterruptedMirrors(w: World, gone: set<Uid>, u: Uid, after: World, foreign: set<Uid>)
    requires Interrupted(w, gone, u, after) && Mirrors(Purged(w, gone), foreign, {}) && u !in w.mem.inFlight
    ensures Mirrors(after, foreign, {})
  {
    var p := Purged(w, gone);
    var row := ParsedRows(w.mem.queue)[u];
    assert p.mem.inFlight - {u} == p.mem.inFlight;
    assert after == World(p.disk, p.mem.Unregister(u).Spawn([row], true));
    PutRow(p.mem.queue, row);
    RowStays(w.mem.queue, gone, u);
    assert UidSet([row] + p.mem.queue) == UidSet(p.mem.queue);
  }

  lemma TrailGrows(sel: Selection, f: map<Uid, Fact>, rootOf: map<Uid, Uid>, order: seq<Uid>, audit: seq<Audit>,
                   why: Audit)
    requires Trail(sel, f, rootOf, order, audit) && |audit| < |order| && why == AuditOf(sel, f, rootOf, order[|audit|])
    ensures Trail(sel, f, rootOf, order, audit + [why])
  {
  }

  lemma PrefixGrows(order: seq<Uid>, i: nat)
    requires i < |order| && NoRepeats(order)
    ensures SetOf(order[..i + 1]) == SetOf(order[..i]) + {order[i]}
    ensures order[i] in SetOf(order) && order[i] !in SetOf(order[..i])
  {
    assert order[..i + 1] == order[..i] + [order[i]];
    AppendOne(order[..i], order[i]);
  }

  lemma PurgeNothing(w: World)
    ensures Purged(w, {}) == w
  {
    WithoutShrinks(w.disk.queue, {});
    WithoutShrinks(w.mem.queue, {});
  }

  /** The first `n` removals of `order` were made: all of them, or up to a failed commit. */
  ghost predicate Removed(w: World, order: seq<Uid>, n: nat, fault: Uid -> bool, after: World, exit: Exit)
    requires n <= |order|
  {
    match exit
    case Returned => n == |order| && after == Purged(w, SetOf(order))
    case CrashSignal => n < |order| && fault(order[n]) && Interrupted(w, SetOf(order[..n]), order[n], after)
    case Terminated => false
  }

  ghost predicate RemovedSoFar(w: World, order: seq<Uid>, n: nat, fault: Uid -> bool, after: World, exit: Exit)
    requires n <= |order|
  {
    if exit == Returned then after == Purged(w, SetOf(order[..n]))
    else exit == CrashSignal && n < |order| && fault(order[n]) && Interrupted(w, SetOf(order[..n]), order[n], after)
  }

  /** The removals in `gone` stand; the row of `u` is back at the head of memory. */
  ghost predicate Interrupted(w: World, gone: set<Uid>, u: Uid, after: World) {
    && u in ParsedRows(w.mem.queue) && u !in gone
    && after == ApplySkip(Purged(w, gone), u, Some(ParsedRows(w.mem.queue)[u]),
                          Faults(true, false, false, _ => false)).0
  }

  // ---- crash, restart, skip again ----

  lemma SameUidSameRow(queue: seq<Row>, a: Row, b: Row)
    requires DistinctUids(queue) && a in queue && b in queue && a.uid == b.uid
    ensures a == b
  {
    var i :| 0 <= i < |queue| && queue[i] == a;
    var j :| 0 <= j < |queue| && queue[j] == b;
  }

  /** The facts of a duplicate-free queue depend on its rows only, not on their order. */
  lemma FactsOfMembers(a: seq<Row>, b: seq<Row>, gone: set<Uid>)
    requires DistinctUids(a) && DistinctUids(b) && forall r :: r in b <==> r in a && r.uid !in gone
    ensures Facts(b) == Facts(a) - gone
  {
    forall u | u in Facts(b) ensures u in Facts(a) && u !in gone && Facts(a)[u] == Facts(b)[u] {
      var r := FactHasRow(b, u);
      FactsOfRow(a, r);
    }
    forall u | u in Facts(a) && u !in gone ensures u in Facts(b) {
      var r := FactHasRow(a, u);
      FactsOfRow(b, r);
    }
  }

  /** Keeping the first row of each uid drops nothing but the second copy of the head. */
  lemma HeadCopyDropped(row: Row, queue: seq<Row>)
    requires DistinctUids(queue) && row in queue
    ensures DistinctUids(KeepFirst([row] + queue, {}))
    ensures forall r :: r in KeepFirst([row] + queue, {}) <==> r in queue
  {
    var kept := KeepFirst([row] + queue, {});
    KeepFirstMeans([row] + queue, {});
    PutRow(queue, row);
    forall r | r in queue ensures r in kept {
      assert r.uid in UidSet(kept);
      var k :| k in kept && k.uid == r.uid;
      SameUidSameRow(queue, k, r);
    }
  }

  /** Reloading after an interrupted round of skips: the jobs the round had not removed. */
  lemma ReloadedFacts(w: World, gone: set<Uid>, u: Uid, after: World)
    requires Mirrors(w, {}, {}) && w.mem.inFlight == {} && DistinctUids(w.mem.queue) && gone <= w.mem.QueueUids()
    requires Interrupted(w, gone, u, after)
    ensures Facts(Restart(after).mem.queue) == Facts(w.mem.queue) - gone
  {
    var kept := Without(w.mem.queue, gone);
    var row := ParsedRows(w.mem.queue)[u];
    PurgedMirrors(w, gone, {});
    InterruptedMirrors(w, gone, u, after, {});
    RestartMirrors(after, {}, {});
    WithoutUids(w.mem.queue, gone);
    WithoutDistinct(w.mem.queue, gone);
    ParsedRowsMatchFacts(w.mem.queue);
    assert after.mem.queue == [row] + kept && row in kept;
    HeadCopyDropped(row, kept);
    MergedRows(after.disk.queue, after.mem.queue);
    assert forall r :: r in after.disk.queue ==> r.uid in UidSet(after.disk.queue);
    FactsOfMembers(w.mem.queue, Restart(after).mem.queue, gone);
  }

  /** A crash in the middle of the removals loses no skip: after saving and restarting, skipping
      again condemns exactly the jobs that had not been removed. */
  lemma SkipsResumeAfterCrash(sel: Selection, w: World, depth: map<Uid, nat>, rootOf: map<Uid, Uid>, order: seq<Uid>,
                              k: nat, after: World, v: Uid)
    requires Mirrors(w, {}, {}) && w.mem.inFlight == {} && DistinctUids(w.mem.queue)
    requires Planned(Facts(w.mem.queue), Seeds(sel, Facts(w.mem.queue), {}), depth, rootOf, order)
    requires k < |order| && Interrupted(w, SetOf(order[..k]), order[k], after)
    ensures var f := Facts(Restart(after).mem.queue);
      Condemned(f, Seeds(sel, f, {}), v) <==> v in depth && v !in SetOf(order[..k])
  {
    FactsMatchGraph(w.mem.queue);
    forall u | u in SetOf(order[..k]) ensures u in w.mem.QueueUids() {
      assert u in SetOf(order);
    }
    ReloadedFacts(w, SetOf(order[..k]), order[k], after);
    FreshPrefixLeavesRest(sel, Facts(w.mem.queue), depth, rootOf, order, k, v);
  }
}
