/** The explicit-stack depth-first search for dependency cycles: its steps, what each keeps, and
    exactly which nodes a whole search lists. */
module CycleSearch {
  import opened Jobs
  import opened Graphs

  function Concat(segments: seq<seq<Uid>>): seq<Uid> {
    if segments == [] then [] else Concat(segments[..|segments| - 1]) + segments[|segments| - 1]
  }

  lemma ConcatMembers(segments: seq<seq<Uid>>)
    ensures forall u :: u in Concat(segments) <==> exists i :: 0 <= i < |segments| && u in segments[i]
  {
    if segments != [] {
      var front := segments[..|segments| - 1];
      ConcatMembers(front);
      forall u ensures u in Concat(segments) <==> exists i :: 0 <= i < |segments| && u in segments[i] {
        if i :| 0 <= i < |segments| && u in segments[i] {
          if i < |front| { assert u in front[i]; }
        }
      }
    }
  }

  datatype Color = White | Gray | Black

  function ColorOf(color: map<Uid, Color>, u: Uid): Color {
    if u in color then color[u] else White
  }

  /** The depth-first search between two steps: `path` is the gray chain from a root, and each
      frame holds the dependencies its node has not looked at yet. */
  datatype Search = Search(color: map<Uid, Color>, path: seq<Uid>, frames: seq<set<Uid>>, members: seq<Uid>)
  {
    ghost predicate Valid(g: Graph) {
      && |frames| == |path| && NoRepeats(path) && color.Keys <= g.Keys
      && (forall i :: 0 <= i < |path| ==> path[i] in g && frames[i] <= g[path[i]])
      && (forall i :: 0 <= i < |path| - 1 ==> path[i + 1] in g[path[i]])
      && (forall u :: u in color ==> color[u] != White)
      && (forall u :: ColorOf(color, u) == Gray <==> u in path)
    }

    function Top(): set<Uid> {
      if frames == [] then {} else frames[|frames| - 1]
    }

    function Start(g: Graph, root: Uid): Search
      requires root in g
    {
      this.(color := color[root := Gray], path := [root], frames := [g[root]])
    }

    /** The top node's iterator is exhausted: the node turns black and leaves the path. */
    function Finish(): Search
      requires |frames| == |path| > 0
    {
      var top := |path| - 1;
      Search(color[path[top] := Black], path[..top], frames[..top], members)
    }

    /** The top node's iterator yields `dep`. */
    function Look(g: Graph, dep: Uid): Search
      requires |frames| == |path| > 0
    {
      var left := frames[|frames| - 1 := Top() - {dep}];
      if dep !in g then this.(frames := left)
      else match ColorOf(color, dep)
        case Gray => this.(frames := left, members := members + Segment(dep))
        case Black => this.(frames := left)
        case White => Search(color[dep := Gray], path + [dep], left + [g[dep]], members)
    }

    /** The path from `dep` on, closed by `dep` again. */
    function Segment(dep: Uid): seq<Uid> {
      path[if dep in path then Position(path, dep) else 0..] + [dep]
    }
  }

  /** Dropping the last node of a path takes exactly that node out of it. */
  lemma PathDrops(path: seq<Uid>)
    requires path != [] && NoRepeats(path)
    ensures var front, last := path[..|path| - 1], path[|path| - 1];
      NoRepeats(front) && last !in front && forall v :: v in path <==> v in front || v == last
  {
    var front, last := path[..|path| - 1], path[|path| - 1];
    assert path == front + [last];
    AppendOne(front, last);
  }

  /** Appending a node that is not on it. */
  lemma PathGrows(path: seq<Uid>, u: Uid)
    requires NoRepeats(path) && u !in path
    ensures NoRepeats(path + [u]) && forall v :: v in path + [u] <==> v in path || v == u
  {
    AppendOne(path, u);
  }

  lemma FinishIsValidSearch(g: Graph, s: Search)
    requires s.Valid(g) && s.path != []
    ensures s.Finish().Valid(g) && s.Finish().color.Keys == s.color.Keys
    ensures forall u :: ColorOf(s.Finish().color, u) == if u == s.path[|s.path| - 1] then Black else ColorOf(s.color, u)
  {
    PathDrops(s.path);
    assert ColorOf(s.color, s.path[|s.path| - 1]) == Gray;
  }

  lemma IntoIsValidSearch(g: Graph, s: Search, dep: Uid)
    requires s.Valid(g) && s.path != [] && dep in s.Top() && dep in g && ColorOf(s.color, dep) == White
    ensures dep !in s.path && s.Look(g, dep).Valid(g)
  {
    assert dep !in s.path;
    PathGrows(s.path, dep);
  }

  /** What node `i` of the path has looked at is finished, or is its successor on the path. */
  ghost predicate Behind(g: Graph, s: Search, order: seq<Uid>, i: nat)
    requires i < |s.path| == |s.frames| && s.path[i] in g
  {
    forall d :: d in g[s.path[i]] && d !in s.frames[i] && d in g ==>
      d in order || (i + 1 < |s.path| && d == s.path[i + 1])
  }

  /** As long as no back edge was met, finished nodes are in topological order. */
  ghost predicate AcyclicSoFar(g: Graph, s: Search, order: seq<Uid>)
    requires s.Valid(g)
  {
    && Topological(g, order)
    && (forall u :: ColorOf(s.color, u) == Black <==> u in order)
    && (forall i :: 0 <= i < |s.path| ==> Behind(g, s, order, i))
  }

  /** Back-edge segments recorded so far. */
  ghost predicate Recorded(g: Graph, members: seq<Uid>, segments: seq<seq<Uid>>) {
    members == Concat(segments) && forall i :: 0 <= i < |segments| ==> ClosedWalk(g, segments[i])
  }

  /** The whole search state: the traversal, the recorded back edges, and, while there are
      none, the topological order of the finished nodes. */
  ghost predicate Exploring(g: Graph, s: Search, order: seq<Uid>, segments: seq<seq<Uid>>) {
    && s.Valid(g) && Recorded(g, s.members, segments)
    && (s.members == [] ==> AcyclicSoFar(g, s, order))
    && (segments == [] <==> s.members == [])
  }

  lemma TopologicalExtends(g: Graph, order: seq<Uid>, u: Uid)
    requires Topological(g, order) && u in g
    requires forall d :: d in g[u] && d in g ==> d in order
    ensures Topological(g, order + [u])
  {
    var o := order + [u];
    forall i, d | 0 <= i < |o| && d in g[o[i]] && d in g ensures d in o[..i] {
      if i < |order| {
        assert o[..i] == order[..i];
      } else {
        assert o[..i] == order;
      }
    }
  }

  lemma StartKeeps(g: Graph, s: Search, order: seq<Uid>, segments: seq<seq<Uid>>, root: Uid)
    requires Exploring(g, s, order, segments) && s.path == [] && root in g && ColorOf(s.color, root) == White
    ensures Exploring(g, s.Start(g, root), order, segments)
  {
  }

  lemma FinishKeeps(g: Graph, s: Search, order: seq<Uid>, segments: seq<seq<Uid>>)
    requires Exploring(g, s, order, segments) && s.path != [] && s.Top() == {}
    ensures Exploring(g, s.Finish(), order + [s.path[|s.path| - 1]], segments)
    ensures s.Finish().color.Keys == s.color.Keys
  {
    var top := |s.path| - 1;
    var u := s.path[top];
    FinishIsValidSearch(g, s);
    if s.members == [] {
      assert Behind(g, s, order, top);
      TopologicalExtends(g, order, u);
      forall i | 0 <= i < top ensures Behind(g, s.Finish(), order + [u], i) {
        assert Behind(g, s, order, i);
      }
    }
  }

  /** A dependency outside the graph, or a finished one, is passed over. */
  lemma LookPast(g: Graph, s: Search, order: seq<Uid>, segments: seq<seq<Uid>>, dep: Uid)
    requires Exploring(g, s, order, segments) && s.path != [] && dep in s.Top()
    requires dep !in g || ColorOf(s.color, dep) == Black
    ensures Exploring(g, s.Look(g, dep), order, segments)
  {
    var n := s.Look(g, dep);
    if n.members == [] {
      forall i | 0 <= i < |n.path| ensures Behind(g, n, order, i) {
        assert Behind(g, s, order, i);
      }
    }
  }

  /** A gray dependency closes a cycle along the path. */
  lemma LookBack(g: Graph, s: Search, order: seq<Uid>, segments: seq<seq<Uid>>, dep: Uid)
    requires Exploring(g, s, order, segments) && s.path != [] && dep in s.Top()
    requires dep in g && ColorOf(s.color, dep) == Gray
    ensures Exploring(g, s.Look(g, dep), order, segments + [s.Segment(dep)])
  {
    var seg := s.Segment(dep);
    var start := Position(s.path, dep);
    assert Walk(g, s.path[start..]) && seg[0] == s.path[start];
    assert ClosedWalk(g, seg);
    assert (segments + [seg])[..|segments|] == segments;
  }

  /** A white dependency turns gray and joins the path. */
  lemma LookInto(g: Graph, s: Search, order: seq<Uid>, segments: seq<seq<Uid>>, dep: Uid)
    requires Exploring(g, s, order, segments) && s.path != [] && dep in s.Top()
    requires dep in g && ColorOf(s.color, dep) == White
    ensures Exploring(g, s.Look(g, dep), order, segments)
    ensures dep in g.Keys - s.color.Keys
  {
    var n := s.Look(g, dep);
    IntoIsValidSearch(g, s, dep);
    if n.members == [] {
      forall i | 0 <= i < |n.path| ensures Behind(g, n, order, i) {
        assert i < |s.path| ==> Behind(g, s, order, i);
      }
    }
  }

  lemma LookKeeps(g: Graph, s: Search, order: seq<Uid>, segments: seq<seq<Uid>>, dep: Uid)
    returns (segments': seq<seq<Uid>>)
    requires Exploring(g, s, order, segments) && s.path != [] && dep in s.Top()
    ensures Exploring(g, s.Look(g, dep), order, segments')
    ensures s.Look(g, dep).color.Keys >= s.color.Keys
    ensures forall u :: ColorOf(s.color, u) == Black ==> ColorOf(s.Look(g, dep).color, u) == Black
    ensures dep in g && ColorOf(s.color, dep) == White ==> dep in g.Keys - s.color.Keys
  {
    segments' := segments;
    if dep !in g || ColorOf(s.color, dep) == Black {
      LookPast(g, s, order, segments, dep);
    } else if ColorOf(s.color, dep) == Gray {
      LookBack(g, s, order, segments, dep);
      segments' := segments + [s.Segment(dep)];
    } else {
      LookInto(g, s, order, segments, dep);
    }
  }

  lemma ExploredIsExact(g: Graph, s: Search, order: seq<Uid>, segments: seq<seq<Uid>>)
    requires Exploring(g, s, order, segments)
    requires forall u :: u in g ==> ColorOf(s.color, u) == Black
    ensures forall u :: u in s.members ==> OnCycle(g, u)
    ensures s.members != [] <==> HasCycle(g)
  {
    if s.members == [] {
      assert g.Keys == set u | u in order;
      TopologicalMeansAcyclic(g, order);
    } else {
      assert ClosedWalk(g, segments[0]);
    }
    ConcatMembers(segments);
    forall u | u in s.members ensures OnCycle(g, u) {
      var i :| 0 <= i < |segments| && u in segments[i];
      var k :| 0 <= k < |segments[i]| && segments[i][k] == u;
      ClosedWalkMembersOnCycle(g, segments[i], k);
    }
  }

  // ---- whole searches, and what they list ----

  const NOTHING := Search(map[], [], [], [])

  /** One turn of the search, whichever root or dependency comes next. */
  ghost predicate StepsTo(g: Graph, s: Search, t: Search) {
    if s.path == [] then exists root :: root in g && ColorOf(s.color, root) == White && t == s.Start(g, root)
    else if |s.frames| != |s.path| then false
    else if s.Top() == {} then t == s.Finish()
    else exists dep :: dep in s.Top() && t == s.Look(g, dep)
  }

  ghost predicate Trace(g: Graph, states: seq<Search>) {
    && |states| > 0 && states[0] == NOTHING
    && forall i :: 0 <= i < |states| - 1 ==> StepsTo(g, states[i], states[i + 1])
  }

  ghost predicate EndsIn(g: Graph, states: seq<Search>, s: Search) {
    Trace(g, states) && states[|states| - 1] == s
  }

  ghost predicate WholeSearch(g: Graph, states: seq<Search>) {
    && Trace(g, states) && states[|states| - 1].path == []
    && forall u :: u in g ==> ColorOf(states[|states| - 1].color, u) == Black
  }

  lemma TraceGrows(g: Graph, states: seq<Search>, t: Search)
    requires Trace(g, states) && StepsTo(g, states[|states| - 1], t)
    ensures Trace(g, states + [t])
  {
    var more := states + [t];
    forall i | 0 <= i < |more| - 1 ensures StepsTo(g, more[i], more[i + 1]) {
      assert i < |states| - 1 ==> more[i + 1] == states[i + 1];
    }
  }

  /** The situation in which a node turns gray: the nodes coloured by then, and the gray path, the
      node itself included in both. */
  datatype Found = Found(seen: set<Uid>, path: seq<Uid>)

  /** In that situation: a walk from the node, through nodes that are still white, up to one that
      depends on a node of the path. */
  ghost predicate WhiteWalk(g: Graph, f: Found, w: seq<Uid>) {
    && f.path != [] && Walk(g, w) && w[0] == f.path[|f.path| - 1]
    && (forall i :: 1 <= i < |w| ==> w[i] !in f.seen)
    && exists d :: d in f.path && d in g[w[|w| - 1]]
  }

  ghost predicate ClosesBack(g: Graph, f: Found) {
    exists w :: WhiteWalk(g, f, w)
  }

  /** The situation each coloured node was found in, and the edges looked at so far. */
  datatype History = History(found: map<Uid, Found>, looked: set<(Uid, Uid)>)

  /** An edge is looked at once its dependency is off the iterator of a coloured node; then the
      dependency is coloured. */
  ghost predicate Looks(g: Graph, s: Search, looked: set<(Uid, Uid)>)
    requires s.Valid(g)
  {
    && (forall v, d :: (v, d) in looked ==> v in s.color && d in g[v] && (d in g ==> d in s.color))
    && (forall v, d :: v in s.color && s.color[v] == Black && d in g[v] ==> (v, d) in looked)
    && (forall j, d :: 0 <= j < |s.path| && d in g[s.path[j]] && d !in s.frames[j] ==> (s.path[j], d) in looked)
  }

  /** What is known of the gray node `path[i]`: it is listed only if it closes back, and as soon as
      it, or a node found after it, is seen to depend on its path. */
  ghost predicate OpenAt(g: Graph, path: seq<Uid>, coloured: set<Uid>, members: seq<Uid>, looked: set<(Uid, Uid)>,
                         i: nat, f: Found)
    requires i < |path|
  {
    && f.path == path[..i + 1] && SetOf(f.path) <= f.seen <= coloured
    && (forall j :: i < j < |path| ==> path[j] !in f.seen)
    && (path[i] in members ==> ClosesBack(g, f))
    && (forall v, d :: (v, d) in looked && (v == path[i] || v !in f.seen) && d in f.path ==> path[i] in members)
  }

  ghost predicate GrayOpen(g: Graph, path: seq<Uid>, coloured: set<Uid>, members: seq<Uid>, looked: set<(Uid, Uid)>,
                           found: map<Uid, Found>) {
    forall i :: 0 <= i < |path| ==> path[i] in found && OpenAt(g, path, coloured, members, looked, i, found[path[i]])
  }

  /** A black node is listed if and only if it closes back. */
  ghost predicate BlackExact(g: Graph, color: map<Uid, Color>, members: seq<Uid>, found: map<Uid, Found>) {
    forall u :: u in color && color[u] == Black ==> u in found && (u in members <==> ClosesBack(g, found[u]))
  }

  ghost predicate Explained(g: Graph, s: Search, h: History) {
    && s.Valid(g) && h.found.Keys == s.color.Keys && SetOf(s.members) <= s.color.Keys && Looks(g, s, h.looked)
    && BlackExact(g, s.color, s.members, h.found)
    && GrayOpen(g, s.path, s.color.Keys, s.members, h.looked, h.found)
  }

  lemma StartExplained(g: Graph, s: Search, h: History, root: Uid)
    requires Explained(g, s, h) && s.path == [] && root in g && ColorOf(s.color, root) == White
    ensures var t := s.Start(g, root); Explained(g, t, h.(found := h.found[root := Found(t.color.Keys, t.path)]))
  {
    assert root !in s.members by { assert root !in SetOf(s.members); }
    assert (s.Start(g, root).path)[..1] == [root];
  }

  ghost predicate Exhausted(g: Graph, looked: set<(Uid, Uid)>, v: Uid)
    requires v in g
  {
    forall d :: d in g[v] ==> (v, d) in looked
  }

  /** When a node is left, everything found after it is black, so white walks from it have been
      looked along. */
  lemma LeavingIsExact(g: Graph, s: Search, h: History)
    requires Explained(g, s, h) && s.path != [] && s.Top() == {}
    ensures var u := s.path[|s.path| - 1]; u in h.found && (u in s.members <==> ClosesBack(g, h.found[u]))
  {
    var top := |s.path| - 1;
    var f := h.found[s.path[top]];
    if w :| WhiteWalk(g, f, w) {
      assert s.path[..top + 1] == s.path;
      WhiteWalkIsSeen(g, s, h.looked, f, w, |w| - 1);
      SeenIsListed(g, s.path, s.color.Keys, s.members, h.looked, top, f, w);
    }
  }

  lemma SeenIsListed(g: Graph, path: seq<Uid>, coloured: set<Uid>, members: seq<Uid>, looked: set<(Uid, Uid)>, i: nat,
                     f: Found, w: seq<Uid>)
    requires i < |path| && OpenAt(g, path, coloured, members, looked, i, f) && WhiteWalk(g, f, w)
    requires Exhausted(g, looked, w[|w| - 1])
    ensures path[i] in members
  {
    var d :| d in f.path && d in g[w[|w| - 1]];
    assert (w[|w| - 1], d) in looked;
  }

  lemma FinishExplained(g: Graph, s: Search, h: History)
    requires Explained(g, s, h) && s.path != [] && s.Top() == {}
    ensures Explained(g, s.Finish(), h)
  {
    FinishIsValid(g, s, h.looked);
    LeavingIsExact(g, s, h);
    GrayDrops(g, s.path, s.color.Keys, s.members, h.looked, h.found);
  }

  lemma GrayDrops(g: Graph, path: seq<Uid>, coloured: set<Uid>, members: seq<Uid>, looked: set<(Uid, Uid)>,
                  found: map<Uid, Found>)
    requires path != [] && GrayOpen(g, path, coloured, members, looked, found)
    ensures GrayOpen(g, path[..|path| - 1], coloured, members, looked, found)
  {
    var front := path[..|path| - 1];
    forall i | 0 <= i < |front|
      ensures front[i] in found && OpenAt(g, front, coloured, members, looked, i, found[front[i]])
    {
      OpenShortens(g, path, coloured, members, looked, i, found[path[i]]);
    }
  }

  lemma OpenShortens(g: Graph, path: seq<Uid>, coloured: set<Uid>, members: seq<Uid>, looked: set<(Uid, Uid)>, i: nat,
                     f: Found)
    requires i < |path| - 1 && OpenAt(g, path, coloured, members, looked, i, f)
    ensures OpenAt(g, path[..|path| - 1], coloured, members, looked, i, f)
  {
    assert path[..|path| - 1][..i + 1] == path[..i + 1];
  }

  lemma FinishIsValid(g: Graph, s: Search, looked: set<(Uid, Uid)>)
    requires s.Valid(g) && Looks(g, s, looked) && s.path != [] && s.Top() == {}
    ensures s.Finish().Valid(g) && Looks(g, s.Finish(), looked) && s.Finish().color.Keys == s.color.Keys
  {
    var top := |s.path| - 1;
    var u := s.path[top];
    assert ColorOf(s.color, u) == Gray;
    FinishIsValidSearch(g, s);
    assert forall d :: d in g[u] ==> (u, d) in looked;
  }

  /** Once the top node is exhausted, a white walk from it stays among what was found after it, all
      of it finished and looked along. */
  lemma {:induction false} WhiteWalkIsSeen(g: Graph, s: Search, looked: set<(Uid, Uid)>, f: Found, w: seq<Uid>, k: nat)
    requires s.Valid(g) && Looks(g, s, looked) && s.path != [] && s.Top() == {} && k < |w|
    requires f.path == s.path && SetOf(f.path) <= f.seen && WhiteWalk(g, f, w)
    ensures w[k] in g && Exhausted(g, looked, w[k])
    ensures k > 0 ==> ColorOf(s.color, w[k]) == Black
  {
    if k == 0 {
      assert s.frames[|s.path| - 1] == {};
    } else {
      WhiteWalkIsSeen(g, s, looked, f, w, k - 1);
      assert w[k - 1 + 1] in g[w[k - 1]] && w[k] !in f.seen;
      WhiteStepIsBlack(g, s, looked, f.seen, w[k - 1], w[k]);
    }
  }

  lemma WhiteStepIsBlack(g: Graph, s: Search, looked: set<(Uid, Uid)>, seen: set<Uid>, v: Uid, d: Uid)
    requires s.Valid(g) && Looks(g, s, looked) && SetOf(s.path) <= seen
    requires v in g && d in g[v] && d in g && d !in seen && Exhausted(g, looked, v)
    ensures Exhausted(g, looked, d) && ColorOf(s.color, d) == Black
  {
    assert (v, d) in looked;
    assert d !in s.path by { assert d !in SetOf(s.path); }
    assert ColorOf(s.color, d) == Black;
  }

  lemma LookIsValid(g: Graph, s: Search, looked: set<(Uid, Uid)>, dep: Uid)
    requires s.Valid(g) && Looks(g, s, looked) && s.path != [] && dep in s.Top()
    ensures s.Look(g, dep).Valid(g) && Looks(g, s.Look(g, dep), looked + {(s.path[|s.path| - 1], dep)})
  {
    assert ColorOf(s.color, s.path[|s.path| - 1]) == Gray;
    if dep in g && ColorOf(s.color, dep) == White {
      LookIntoIsValid(g, s, looked, dep);
    }
  }

  lemma LookIntoIsValid(g: Graph, s: Search, looked: set<(Uid, Uid)>, dep: Uid)
    requires s.Valid(g) && Looks(g, s, looked) && s.path != [] && dep in s.Top() && dep in g &&
      ColorOf(s.color, dep) == White
    ensures s.Look(g, dep).Valid(g) && Looks(g, s.Look(g, dep), looked + {(s.path[|s.path| - 1], dep)})
  {
    IntoIsValidSearch(g, s, dep);
    assert ColorOf(s.color, s.path[|s.path| - 1]) == Gray;
  }

  /** An edge to a node off the gray path changes nothing for the nodes on it. */
  lemma OpenKeeps(g: Graph, path: seq<Uid>, coloured: set<Uid>, members: seq<Uid>, looked: set<(Uid, Uid)>, i: nat,
                  f: Found, v: Uid, d: Uid)
    requires i < |path| && OpenAt(g, path, coloured, members, looked, i, f) && d !in f.path
    ensures OpenAt(g, path, coloured, members, looked + {(v, d)}, i, f)
  {
  }

  lemma GrayKeeps(g: Graph, path: seq<Uid>, coloured: set<Uid>, members: seq<Uid>, looked: set<(Uid, Uid)>,
                  found: map<Uid, Found>, v: Uid, d: Uid)
    requires GrayOpen(g, path, coloured, members, looked, found) && d !in path
    ensures GrayOpen(g, path, coloured, members, looked + {(v, d)}, found)
  {
    forall i | 0 <= i < |path| ensures OpenAt(g, path, coloured, members, looked + {(v, d)}, i, found[path[i]]) {
      OpenKeeps(g, path, coloured, members, looked, i, found[path[i]], v, d);
    }
  }

  /** A dependency outside the graph, or a black one. */
  lemma LookPastExplained(g: Graph, s: Search, h: History, dep: Uid)
    requires Explained(g, s, h) && s.path != [] && dep in s.Top() && (dep !in g || ColorOf(s.color, dep) == Black)
    ensures Explained(g, s.Look(g, dep), h.(looked := h.looked + {(s.path[|s.path| - 1], dep)}))
  {
    LookIsValid(g, s, h.looked, dep);
    assert dep !in s.path;
    GrayKeeps(g, s.path, s.color.Keys, s.members, h.looked, h.found, s.path[|s.path| - 1], dep);
  }

  /** A back edge lists exactly the path from its end on, and each of those nodes closes back. */
  lemma LookBackExplained(g: Graph, s: Search, h: History, dep: Uid)
    requires Explained(g, s, h) && s.path != [] && dep in s.Top() && dep in g && ColorOf(s.color, dep) == Gray
    ensures Explained(g, s.Look(g, dep), h.(looked := h.looked + {(s.path[|s.path| - 1], dep)}))
  {
    var t, top := s.Look(g, dep), s.path[|s.path| - 1];
    LookIsValid(g, s, h.looked, dep);
    ListingIsGray(g, s, dep);
    var listed := s.members + s.Segment(dep);
    assert t.members == listed && t.path == s.path && t.color == s.color;
    assert BlackExact(g, s.color, listed, h.found);
    forall i | 0 <= i < |s.path|
      ensures OpenAt(g, s.path, s.color.Keys, listed, h.looked + {(top, dep)}, i, h.found[s.path[i]])
    {
      OpenLooksBack(g, s, h.looked, i, h.found[s.path[i]], dep);
    }
    assert GrayOpen(g, s.path, s.color.Keys, listed, h.looked + {(top, dep)}, h.found);
  }

  /** A back edge lists gray nodes only. */
  lemma ListingIsGray(g: Graph, s: Search, dep: Uid)
    requires s.Valid(g) && dep in s.path && SetOf(s.members) <= s.color.Keys
    ensures SetOf(s.members + s.Segment(dep)) <= s.color.Keys
    ensures forall u :: u in s.color && s.color[u] == Black ==> (u in s.members + s.Segment(dep) <==> u in s.members)
  {
    SegmentMembers(s, dep);
    forall u | u in s.Segment(dep) ensures ColorOf(s.color, u) == Gray && u in s.color {
      assert u in SetOf(s.Segment(dep));
      assert u in s.path;
    }
    forall u | u in SetOf(s.members + s.Segment(dep)) ensures u in s.color.Keys {
      assert u in SetOf(s.members) || u in s.Segment(dep);
    }
  }

  lemma OpenLooksBack(g: Graph, s: Search, looked: set<(Uid, Uid)>, i: nat, f: Found, dep: Uid)
    requires s.Valid(g) && i < |s.path| && dep in s.Top() && dep in s.path
    requires OpenAt(g, s.path, s.color.Keys, s.members, looked, i, f)
    ensures OpenAt(g, s.path, s.color.Keys, s.members + s.Segment(dep), looked + {(s.path[|s.path| - 1], dep)}, i, f)
  {
    var start := Position(s.path, dep);
    SegmentMembers(s, dep);
    if start <= i {
      PathClosesBack(g, s, i, f, dep);
    } else {
      assert dep !in f.path by {
        assert forall k :: 0 <= k < |f.path| ==> f.path[k] == s.path[k] != s.path[start];
      }
      assert s.path[i] in s.members + s.Segment(dep) <==> s.path[i] in s.members;
      OpenKeeps(g, s.path, s.color.Keys, s.members, looked, i, f, s.path[|s.path| - 1], dep);
    }
  }

  /** The rest of the path is a white walk from `path[i]`. */
  lemma PathClosesBack(g: Graph, s: Search, i: nat, f: Found, dep: Uid)
    requires s.Valid(g) && i < |s.path| && dep in s.Top() && dep in s.path && Position(s.path, dep) <= i
    requires f.path == s.path[..i + 1] && forall j :: i < j < |s.path| ==> s.path[j] !in f.seen
    ensures ClosesBack(g, f)
  {
    var w := s.path[i..];
    assert f.path[Position(s.path, dep)] == dep && f.path[i] == w[0] == s.path[i];
    assert Walk(g, w) && forall k :: 1 <= k < |w| ==> w[k] == s.path[i + k];
    assert w[|w| - 1] == s.path[|s.path| - 1] && dep in g[w[|w| - 1]];
    assert |f.path| == i + 1 && dep in f.path;
    forall k | 1 <= k < |w| ensures w[k] !in f.seen {
      assert w[k] == s.path[i + k];
    }
    assert WhiteWalk(g, f, w);
  }

  /** The members of a segment are the path nodes from the end of the back edge on. */
  lemma SegmentMembers(s: Search, dep: Uid)
    requires NoRepeats(s.path) && dep in s.path
    ensures forall i :: 0 <= i < |s.path| ==> (s.path[i] in s.Segment(dep) <==> Position(s.path, dep) <= i)
    ensures SetOf(s.Segment(dep)) <= SetOf(s.path)
  {
    var start := Position(s.path, dep);
    forall i | 0 <= i < |s.path| ensures s.path[i] in s.Segment(dep) <==> start <= i {
      if start <= i {
        assert s.Segment(dep)[i - start] == s.path[i];
      }
    }
  }

  /** A new node at the end of the path: nothing it depends on has been looked at. */
  lemma GrayGrows(g: Graph, path: seq<Uid>, coloured: set<Uid>, members: seq<Uid>, looked: set<(Uid, Uid)>,
                  found: map<Uid, Found>, dep: Uid)
    requires path != [] && GrayOpen(g, path, coloured, members, looked, found) && SetOf(path) <= coloured
    requires dep !in coloured && dep !in members && forall v, d :: (v, d) in looked ==> v in coloured
    ensures var more, top := coloured + {dep}, path[|path| - 1];
      GrayOpen(g, path + [dep], more, members, looked + {(top, dep)}, found[dep := Found(more, path + [dep])])
  {
    var top, now, more := path[|path| - 1], path + [dep], coloured + {dep};
    var after := found[dep := Found(more, now)];
    assert dep !in path by { assert dep !in SetOf(path); }
    AppendOne(path, dep);
    GrayKeeps(g, path, coloured, members, looked, found, top, dep);
    forall i | 0 <= i < |now|
      ensures now[i] in after && OpenAt(g, now, more, members, looked + {(top, dep)}, i, after[now[i]])
    {
      if i < |path| {
        assert now[..i + 1] == path[..i + 1];
        assert OpenAt(g, path, coloured, members, looked + {(top, dep)}, i, found[path[i]]);
      } else {
        assert now[..i + 1] == now && top in SetOf(path);
      }
    }
  }

  /** A white dependency turns gray. */
  lemma LookIntoExplained(g: Graph, s: Search, h: History, dep: Uid)
    requires Explained(g, s, h) && s.path != [] && dep in s.Top() && dep in g && ColorOf(s.color, dep) == White
    ensures var t := s.Look(g, dep);
      Explained(g, t, History(h.found[dep := Found(t.color.Keys, t.path)], h.looked + {(s.path[|s.path| - 1], dep)}))
  {
    var t := s.Look(g, dep);
    LookIsValid(g, s, h.looked, dep);
    assert dep !in s.members by { assert dep !in SetOf(s.members); }
    assert t.color.Keys == s.color.Keys + {dep};
    assert SetOf(s.path) <= s.color.Keys by {
      assert forall u :: u in s.path ==> ColorOf(s.color, u) == Gray;
    }
    GrayGrows(g, s.path, s.color.Keys, s.members, h.looked, h.found, dep);
  }

  /** The situations known after a step: the known ones, and that of a node that turned gray. */
  ghost predicate Remembers(h: History, t: Search, h': History) {
    && h.found.Keys <= h'.found.Keys
    && forall u :: u in h'.found ==> h'.found[u] == if u in h.found then h.found[u] else Found(t.color.Keys, t.path)
  }

  lemma LookExplained(g: Graph, s: Search, h: History, dep: Uid) returns (h': History)
    requires Explained(g, s, h) && s.path != [] && dep in s.Top()
    ensures Explained(g, s.Look(g, dep), h') && Remembers(h, s.Look(g, dep), h')
  {
    h' := h.(looked := h.looked + {(s.path[|s.path| - 1], dep)});
    if dep !in g || ColorOf(s.color, dep) == Black {
      LookPastExplained(g, s, h, dep);
    } else if ColorOf(s.color, dep) == Gray {
      LookBackExplained(g, s, h, dep);
    } else {
      var t := s.Look(g, dep);
      LookIntoExplained(g, s, h, dep);
      h' := h'.(found := h.found[dep := Found(t.color.Keys, t.path)]);
    }
  }

  lemma StepExplained(g: Graph, s: Search, h: History, t: Search) returns (h': History)
    requires Explained(g, s, h) && StepsTo(g, s, t)
    ensures Explained(g, t, h') && Remembers(h, t, h')
  {
    if s.path == [] {
      var root :| root in g && ColorOf(s.color, root) == White && t == s.Start(g, root);
      StartExplained(g, s, h, root);
      h' := h.(found := h.found[root := Found(t.color.Keys, t.path)]);
    } else if s.Top() == {} {
      FinishExplained(g, s, h);
      h' := h;
    } else {
      var dep :| dep in s.Top() && t == s.Look(g, dep);
      h' := LookExplained(g, s, h, dep);
    }
  }

  /** Turn `m` is the one in which `u` turns gray. */
  ghost predicate TurnsGray(states: seq<Search>, m: nat, u: Uid) {
    m + 1 < |states| && u !in states[m].color && u in states[m + 1].color
  }

  /** What is coloured, and which path is gray, right after turn `m`. */
  function SituationAfter(states: seq<Search>, m: nat): Found
    requires m + 1 < |states|
  {
    Found(states[m + 1].color.Keys, states[m + 1].path)
  }

  /** The situations of the nodes that turned gray in the first `n` turns. */
  ghost predicate Knows(states: seq<Search>, n: nat, h: History) {
    forall m: nat, u :: m < n && TurnsGray(states, m, u) ==> u in h.found && h.found[u] == SituationAfter(states, m)
  }

  lemma KnowsMore(states: seq<Search>, n: nat, h: History, h': History)
    requires n + 1 < |states| && Knows(states, n, h) && Remembers(h, states[n + 1], h')
    requires h.found.Keys == states[n].color.Keys && h'.found.Keys == states[n + 1].color.Keys
    ensures Knows(states, n + 1, h')
  {
  }

  lemma {:induction false} TraceExplained(g: Graph, states: seq<Search>, n: nat) returns (h: History)
    requires Trace(g, states) && n < |states|
    ensures Explained(g, states[n], h) && Knows(states, n, h)
  {
    if n == 0 {
      h := History(map[], {});
    } else {
      var before := TraceExplained(g, states, n - 1);
      assert StepsTo(g, states[n - 1], states[n - 1 + 1]);
      h := StepExplained(g, states[n - 1], before, states[n]);
      KnowsMore(states, n - 1, before, h);
    }
  }

  /** What a whole search lists: `u` is listed if and only if, when it turned gray, a walk from it
      through nodes still white ended in a node depending on the gray path (`u` included). */
  lemma ListedIffClosesBack(g: Graph, states: seq<Search>, m: nat, u: Uid)
    requires WholeSearch(g, states) && TurnsGray(states, m, u)
    ensures u in states[|states| - 1].members <==> ClosesBack(g, SituationAfter(states, m))
  {
    var h := TraceExplained(g, states, |states| - 1);
  }

  /** Each node turns gray, at the end of the gray path. */
  lemma EveryNodeTurnsGray(g: Graph, states: seq<Search>, u: Uid) returns (m: nat)
    requires WholeSearch(g, states) && u in g
    ensures TurnsGray(states, m, u) && var path := SituationAfter(states, m).path; path != [] && path[|path| - 1] == u
  {
    m := 0;
    while u !in states[m + 1].color
      invariant m + 1 < |states| && u !in states[m].color
      decreases |states| - m
    {
      m := m + 1;
    }
    var h := TraceExplained(g, states, m);
    GrayEndsPath(g, states[m], states[m + 1], u);
  }

  lemma GrayEndsPath(g: Graph, s: Search, t: Search, u: Uid)
    requires s.Valid(g) && StepsTo(g, s, t) && u !in s.color && u in t.color
    ensures t.path != [] && t.path[|t.path| - 1] == u
  {
    assert s.path != [] ==> ColorOf(s.color, s.path[|s.path| - 1]) == Gray;
  }

  // ---- graphs whose nodes have at most one dependency inside ----

  ghost predicate SingleDependencies(g: Graph) {
    forall u, d, e :: u in g && d in g[u] && e in g[u] && d in g && e in g ==> d == e
  }

  ghost predicate BlackClosed(g: Graph, s: Search)
    requires s.Valid(g)
  {
    forall v, d :: v in s.color && s.color[v] == Black && d in g[v] && d in g ==> ColorOf(s.color, d) == Black
  }

  ghost predicate Outside(g: Graph, frame: set<Uid>) {
    forall d :: d in frame ==> d !in g
  }

  /** With single dependencies: below the top nothing of the graph is left to look at, and at the
      top only while no black node depends on one that is not. */
  ghost predicate Straight(g: Graph, s: Search) {
    && s.Valid(g) && (forall i :: 0 <= i < |s.path| - 1 ==> Outside(g, s.frames[i]))
    && (BlackClosed(g, s) || Outside(g, s.Top()))
  }

  lemma StraightStarts(g: Graph, s: Search, h: History, root: Uid)
    requires Explained(g, s, h) && s.path == [] && root in g && ColorOf(s.color, root) == White
    ensures var t := s.Start(g, root); t.Valid(g) && BlackClosed(g, t)
  {
    StartExplained(g, s, h, root);
    forall v, d | v in s.color && s.color[v] == Black && d in g[v] && d in g ensures ColorOf(s.color, d) == Black {
      assert (v, d) in h.looked;
      assert d !in s.path;
    }
  }

  lemma StraightFinishes(g: Graph, s: Search)
    requires Straight(g, s) && s.path != []
    ensures Straight(g, s.Finish()) && s.Finish().color.Keys == s.color.Keys
  {
    FinishIsValidSearch(g, s);
    assert ColorOf(s.color, s.path[|s.path| - 1]) == Gray;
  }

  lemma StraightLooks(g: Graph, s: Search, dep: Uid)
    requires SingleDependencies(g) && Straight(g, s) && s.path != [] && dep in s.Top() && s.Look(g, dep).Valid(g)
    ensures Straight(g, s.Look(g, dep))
    ensures s.Look(g, dep).color.Keys != s.color.Keys ==> BlackClosed(g, s.Look(g, dep))
  {
    assert dep in g[s.path[|s.path| - 1]];
    if dep in g {
      LookedOut(g, s, dep);
    }
  }

  /** After a look at a dependency inside the graph, nothing inside it is left to look at. */
  lemma LookedOut(g: Graph, s: Search, dep: Uid)
    requires SingleDependencies(g) && s.Valid(g) && s.path != [] && dep in s.Top() && dep in g
    ensures Outside(g, s.Top() - {dep})
  {
    assert s.Top() <= g[s.path[|s.path| - 1]];
  }

  lemma StraightKeeps(g: Graph, s: Search, h: History, t: Search)
    requires SingleDependencies(g) && Explained(g, s, h) && Straight(g, s) && StepsTo(g, s, t) && t.Valid(g)
    ensures Straight(g, t)
    ensures t.color.Keys != s.color.Keys ==> BlackClosed(g, t)
  {
    if s.path == [] {
      var root :| root in g && ColorOf(s.color, root) == White && t == s.Start(g, root);
      StraightStarts(g, s, h, root);
    } else if s.Top() == {} {
      StraightFinishes(g, s);
    } else {
      var dep :| dep in s.Top() && t == s.Look(g, dep);
      StraightLooks(g, s, dep);
    }
  }

  lemma {:induction false} TraceIsStraight(g: Graph, states: seq<Search>, n: nat)
    requires SingleDependencies(g) && Trace(g, states) && n < |states|
    ensures Straight(g, states[n])
    ensures n > 0 && states[n].color.Keys != states[n - 1].color.Keys ==> BlackClosed(g, states[n])
  {
    if n > 0 {
      TraceIsStraight(g, states, n - 1);
      var before := TraceExplained(g, states, n - 1);
      var after := TraceExplained(g, states, n);
      assert StepsTo(g, states[n - 1], states[n - 1 + 1]);
      StraightKeeps(g, states[n - 1], before, states[n]);
    }
  }

  /** When every node has at most one dependency inside the graph, every node on a cycle is
      listed, whatever order the search takes. */
  lemma SingleDependenciesListAll(g: Graph, states: seq<Search>, u: Uid)
    requires SingleDependencies(g) && WholeSearch(g, states) && OnCycle(g, u)
    ensures u in states[|states| - 1].members
  {
    var w :| ClosedWalk(g, w) && w[0] == u;
    var m := EveryNodeTurnsGray(g, states, u);
    TraceIsStraight(g, states, m + 1);
    CycleClosesBack(g, states[m + 1], w);
    ListedIffClosesBack(g, states, m, u);
  }

  lemma CycleClosesBack(g: Graph, s: Search, w: seq<Uid>)
    requires s.Valid(g) && BlackClosed(g, s) && s.path != [] && ClosedWalk(g, w) && w[0] == s.path[|s.path| - 1]
    ensures ClosesBack(g, Found(s.color.Keys, s.path))
  {
    var k := 1;
    while w[k] !in s.path
      invariant 1 <= k < |w| && forall i :: 1 <= i < k ==> w[i] !in s.path
      decreases |w| - k
    {
      k := k + 1;
    }
    forall i | 1 <= i < k ensures w[i] !in s.color {
      if w[i] in s.color {
        assert ColorOf(s.color, w[i]) == Black;
        BlackStays(g, s, w, i, |w| - 1);
      }
    }
    assert w[..k][k - 1] == w[k - 1];
    assert WhiteWalk(g, Found(s.color.Keys, s.path), w[..k]);
  }

  lemma {:induction false} BlackStays(g: Graph, s: Search, w: seq<Uid>, i: nat, j: nat)
    requires s.Valid(g) && BlackClosed(g, s) && Walk(g, w) && i <= j < |w| && ColorOf(s.color, w[i]) == Black
    ensures ColorOf(s.color, w[j]) == Black
  {
    if i < j {
      BlackStays(g, s, w, i, j - 1);
      assert w[j - 1 + 1] in g[w[j - 1]];
    }
  }

  // ---- a whole search that misses a member ----

  /** The listing is sound but not complete: in this whole search `c` is looked at only after `b`
      is finished, so it is not listed although it lies on the cycle a, c, b, a. */
  lemma ListingMissesMembers(a: Uid, b: Uid, c: Uid) returns (g: Graph, states: seq<Search>)
    requires a != b && b != c && a != c
    ensures g == map[a := {b, c}, b := {a}, c := {b}] && WholeSearch(g, states)
    ensures states[|states| - 1].members == [a, b, a] && OnCycle(g, c)
  {
    g := map[a := {b, c}, b := {a}, c := {b}];
    states := FirstBranch(g, a, b, c);
    states := SecondBranch(g, states, a, b, c);
    assert ClosedWalk(g, [c, b, a, c]);
  }

  /** From `a` into `b`, which closes the cycle a, b, a and is finished. */
  lemma FirstBranch(g: Graph, a: Uid, b: Uid, c: Uid) returns (states: seq<Search>)
    requires a != b && b != c && a != c && g == map[a := {b, c}, b := {a}, c := {b}]
    ensures Trace(g, states) && states[|states| - 1] == Search(map[a := Gray, b := Black], [a], [{c}], [a, b, a])
  {
    var s1 := NOTHING.Start(g, a);
    var s2 := s1.Look(g, b);
    assert s2 == Search(map[a := Gray, b := Gray], [a, b], [{c}, {a}], []) by {
      assert {b, c} - {b} == {c} && [{b, c}][0 := {c}] == [{c}];
    }
    var s3 := s2.Look(g, a);
    assert s3 == Search(map[a := Gray, b := Gray], [a, b], [{c}, {}], [a, b, a]) by {
      assert {a} - {a} == {} && [{c}, {a}][1 := {}] == [{c}, {}] && s2.Segment(a) == [a, b, a];
    }
    TraceGrows(g, [NOTHING], s1);
    TraceGrows(g, [NOTHING] + [s1], s2);
    TraceGrows(g, [NOTHING] + [s1] + [s2], s3);
    TraceGrows(g, [NOTHING] + [s1] + [s2] + [s3], s3.Finish());
    states := [NOTHING] + [s1] + [s2] + [s3] + [s3.Finish()];
  }

  /** From `a` into `c`, whose dependency `b` is finished, so nothing is recorded. */
  lemma SecondBranch(g: Graph, before: seq<Search>, a: Uid, b: Uid, c: Uid) returns (states: seq<Search>)
    requires a != b && b != c && a != c && g == map[a := {b, c}, b := {a}, c := {b}]
    requires Trace(g, before) && before[|before| - 1] == Search(map[a := Gray, b := Black], [a], [{c}], [a, b, a])
    ensures Trace(g, states)
    ensures states[|states| - 1] == Search(map[a := Black, b := Black, c := Black], [], [], [a, b, a])
  {
    var s5 := before[|before| - 1].Look(g, c);
    assert s5 == Search(map[a := Gray, b := Black, c := Gray], [a, c], [{}, {b}], [a, b, a]) by {
      assert {c} - {c} == {} && [{c}][0 := {}] == [{}];
    }
    var s6 := s5.Look(g, b);
    assert s6 == Search(map[a := Gray, b := Black, c := Gray], [a, c], [{}, {}], [a, b, a]) by {
      assert {b} - {b} == {} && [{}, {b}][1 := {}] == [{}, {}];
    }
    TraceGrows(g, before, s5);
    TraceGrows(g, before + [s5], s6);
    TraceGrows(g, before + [s5] + [s6], s6.Finish());
    TraceGrows(g, before + [s5] + [s6] + [s6.Finish()], s6.Finish().Finish());
    states := before + [s5] + [s6] + [s6.Finish()] + [s6.Finish().Finish()];
  }
}
