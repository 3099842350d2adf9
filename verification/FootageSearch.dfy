/**
 * The breadth-first search of `find_input_footage`: from a node against the
 * direction of the edges, on a graph that may have cycles and dangling edges.
 */
module FootageSearch {
  import opened Wrappers

  const FOOTAGE := "org.olivevideoeditor.Olive.footage"

  datatype NodeId = NodeId(index: nat, generation: nat)

  datatype Edge = Edge(from: NodeId, to: NodeId, inputKey: nat, element: int)

  /** `nodes` holds the live ids and their type ids; an id outside it is stale. */
  datatype Graph = Graph(nodes: map<NodeId, string>, edges: seq<Edge>)

  /** The sources of the first `n` edges that feed `id`, in edge order. */
  function Inputs(edges: seq<Edge>, id: NodeId, n: nat): seq<NodeId>
    requires n <= |edges|
  {
    if n == 0 then []
    else Inputs(edges, id, n - 1) + (if edges[n - 1].to == id then [edges[n - 1].from] else [])
  }

  lemma {:induction false} InputsAreSources(edges: seq<Edge>, id: NodeId, n: nat, src: NodeId)
    requires n <= |edges|
    ensures src in Inputs(edges, id, n) <==> exists k :: 0 <= k < n && edges[k].to == id && edges[k].from == src
  {
    if n > 0 {
      InputsAreSources(edges, id, n - 1, src);
      if edges[n - 1].to == id && edges[n - 1].from == src {
        assert src in Inputs(edges, id, n);
      }
    }
  }

  /** `input_connections`: a filter over the edge list. */
  method InputConnections(g: Graph, id: NodeId) returns (sources: seq<NodeId>)
    ensures sources == Inputs(g.edges, id, |g.edges|)
  {
    sources := [];
    for k := 0 to |g.edges|
      invariant sources == Inputs(g.edges, id, k)
    {
      if g.edges[k].to == id {
        sources := sources + [g.edges[k].from];
      }
    }
  }

  // ----- distance -----

  ghost predicate Feeds(g: Graph, src: NodeId, id: NodeId) {
    exists k :: 0 <= k < |g.edges| && g.edges[k].to == id && g.edges[k].from == src
  }

  /** A walk against the edges: each node feeds the one before it. */
  ghost predicate IsWalk(g: Graph, walk: seq<NodeId>) {
    walk != [] && forall k :: 0 < k < |walk| ==> Feeds(g, walk[k], walk[k - 1])
  }

  /** Some walk of exactly `d` edges leads from `start` to `n`. */
  ghost predicate ReachedIn(g: Graph, start: NodeId, n: NodeId, d: nat)
    decreases d
  {
    if d == 0 then n == start else exists m :: ReachedIn(g, start, m, d - 1) && Feeds(g, n, m)
  }

  lemma {:induction false} ReachedInIsWalk(g: Graph, start: NodeId, n: NodeId, d: nat)
    ensures ReachedIn(g, start, n, d) <==>
      exists walk :: IsWalk(g, walk) && |walk| == d + 1 && walk[0] == start && walk[d] == n
  {
    if ReachedIn(g, start, n, d) {
      var walk := WalkOf(g, start, n, d);
    }
    if walk :| IsWalk(g, walk) && |walk| == d + 1 && walk[0] == start && walk[d] == n {
      WalkReaches(g, start, walk, d);
    }
  }

  lemma {:induction false} WalkOf(g: Graph, start: NodeId, n: NodeId, d: nat) returns (walk: seq<NodeId>)
    requires ReachedIn(g, start, n, d)
    ensures IsWalk(g, walk) && |walk| == d + 1 && walk[0] == start && walk[d] == n
    decreases d
  {
    if d == 0 {
      walk := [n];
    } else {
      var m :| ReachedIn(g, start, m, d - 1) && Feeds(g, n, m);
      var shorter := WalkOf(g, start, m, d - 1);
      walk := shorter + [n];
    }
  }

  lemma {:induction false} WalkReaches(g: Graph, start: NodeId, walk: seq<NodeId>, d: nat)
    requires IsWalk(g, walk) && d < |walk| && walk[0] == start
    ensures ReachedIn(g, start, walk[d], d)
  {
    if d > 0 {
      WalkReaches(g, start, walk, d - 1);
      assert Feeds(g, walk[d], walk[d - 1]);
    }
  }

  predicate IsFootage(g: Graph, start: NodeId, n: NodeId) {
    n in g.nodes && g.nodes[n] == FOOTAGE && n != start
  }

  /** The search goes on through `n`: it is live and not an answer. */
  predicate Passable(g: Graph, start: NodeId, n: NodeId) {
    n in g.nodes && !IsFootage(g, start, n)
  }

  /** Every node nearer than `d` edges is passable. */
  ghost predicate ClearBelow(g: Graph, start: NodeId, d: nat) {
    forall k, n :: 0 <= k < d && ReachedIn(g, start, n, k) ==> Passable(g, start, n)
  }

  /** The contract of an answer: a footage node, and nothing nearer stops the search. */
  ghost predicate IsNearestFootage(g: Graph, start: NodeId, n: NodeId) {
    IsFootage(g, start, n) && exists d: nat :: ReachedIn(g, start, n, d) && ClearBelow(g, start, d)
  }

  /** A stale id ends the search before any footage node nearer than it was seen. */
  ghost predicate EndsAtStaleId(g: Graph, start: NodeId) {
    exists n, d: nat :: n !in g.nodes && ReachedIn(g, start, n, d) && ClearBelow(g, start, d)
  }

  /** The two promises `FindInputFootage` makes for its answer. */
  ghost predicate IsAnswer(g: Graph, id: NodeId, found: Option<NodeId>) {
    && (found.Some? ==> IsNearestFootage(g, id, found.value))
    && (found.None? ==> EndsAtStaleId(g, id) || forall n, d: nat :: ReachedIn(g, id, n, d) ==> Passable(g, id, n))
  }

  // ----- the order of the search -----

  /** The sources of the nodes of a list, node by node and in edge order. */
  function Expand(g: Graph, s: seq<NodeId>): seq<NodeId> {
    if s == [] then [] else Expand(g, s[..|s| - 1]) + Inputs(g.edges, s[|s| - 1], |g.edges|)
  }

  /** The nodes `d` edges up, in edge order; a node stands there once for every walk to it. */
  function Layer(g: Graph, start: NodeId, d: nat): seq<NodeId> {
    if d == 0 then [start] else Expand(g, Layer(g, start, d - 1))
  }

  ghost predicate NoneStops(g: Graph, start: NodeId, s: seq<NodeId>) {
    forall j :: 0 <= j < |s| ==> Passable(g, start, s[j])
  }

  ghost predicate StandsFirst(g: Graph, start: NodeId, s: seq<NodeId>, i: nat) {
    i < |s| && !Passable(g, start, s[i]) && forall j :: 0 <= j < i ==> Passable(g, start, s[j])
  }

  /** The first node of a list that stops the search. */
  function FirstStop(g: Graph, start: NodeId, s: seq<NodeId>): Option<NodeId> {
    if s == [] then None
    else
      var before := FirstStop(g, start, s[..|s| - 1]);
      if before.Some? then before
      else if Passable(g, start, s[|s| - 1]) then None else Some(s[|s| - 1])
  }

  lemma {:induction false} FirstStopAt(g: Graph, start: NodeId, s: seq<NodeId>) returns (i: nat)
    ensures FirstStop(g, start, s).None? <==> NoneStops(g, start, s)
    ensures FirstStop(g, start, s).Some? ==> StandsFirst(g, start, s, i) && s[i] == FirstStop(g, start, s).value
  {
    i := 0;
    if s != [] {
      i := FirstStopAt(g, start, s[..|s| - 1]);
      assert forall j :: 0 <= j < |s| - 1 ==> s[..|s| - 1][j] == s[j];
      if FirstStop(g, start, s[..|s| - 1]).None? { i := |s| - 1; }
    }
  }

  /** `f` is `full` without some nodes that have been visited or stand further in front in `f`. */
  ghost predicate Thinned(visited: seq<NodeId>, f: seq<NodeId>, full: seq<NodeId>)
    decreases |full|
  {
    if full == [] then f == []
    else
      var x, before := full[|full| - 1], full[..|full| - 1];
      || (f != [] && f[|f| - 1] == x && Thinned(visited, f[..|f| - 1], before))
      || ((x in visited || x in f) && Thinned(visited, f, before))
  }

  lemma {:induction false} ThinnedStopsAlike(g: Graph, start: NodeId, visited: seq<NodeId>, f: seq<NodeId>,
                                             full: seq<NodeId>)
    requires Thinned(visited, f, full) && AllPassable(g, start, visited)
    ensures FirstStop(g, start, f) == FirstStop(g, start, full)
    decreases |full|
  {
    if full != [] {
      var x, before := full[|full| - 1], full[..|full| - 1];
      if f != [] && f[|f| - 1] == x && Thinned(visited, f[..|f| - 1], before) {
        ThinnedStopsAlike(g, start, visited, f[..|f| - 1], before);
      } else {
        ThinnedStopsAlike(g, start, visited, f, before);
        var i := FirstStopAt(g, start, f);
      }
    }
  }

  lemma ThinnedKeeps(visited: seq<NodeId>, f: seq<NodeId>, full: seq<NodeId>, x: NodeId)
    requires Thinned(visited, f, full)
    ensures Thinned(visited, f + [x], full + [x])
    ensures x in visited || x in f ==> Thinned(visited, f, full + [x])
  {
    assert (f + [x])[..|f|] == f && (full + [x])[..|full|] == full;
  }

  /** The same nodes behind both. */
  lemma {:induction false} ThinnedKeepsAll(visited: seq<NodeId>, f: seq<NodeId>, full: seq<NodeId>, more: seq<NodeId>)
    requires Thinned(visited, f, full)
    ensures Thinned(visited, f + more, full + more)
    decreases |more|
  {
    if more == [] {
      assert f + more == f && full + more == full;
    } else {
      var front, x := more[..|more| - 1], more[|more| - 1];
      ThinnedKeepsAll(visited, f, full, front);
      ThinnedKeeps(visited, f + front, full + front, x);
      LastOfJoined(f, front, x, more);
      LastOfJoined(full, front, x, more);
    }
  }

  /** Nodes that are known behind the full list alone. */
  lemma {:induction false} ThinnedDrops(visited: seq<NodeId>, f: seq<NodeId>, full: seq<NodeId>, more: seq<NodeId>)
    requires Thinned(visited, f, full) && forall x :: x in more ==> x in visited || x in f
    ensures Thinned(visited, f, full + more)
    decreases |more|
  {
    if more == [] {
      assert full + more == full;
    } else {
      var front, x := more[..|more| - 1], more[|more| - 1];
      assert more == front + [x];
      ThinnedDrops(visited, f, full, front);
      ThinnedKeeps(visited, f, full + front, x);
      LastOfJoined(full, front, x, more);
    }
  }

  lemma LastOfJoined(a: seq<NodeId>, front: seq<NodeId>, x: NodeId, more: seq<NodeId>)
    requires more != [] && front == more[..|more| - 1] && x == more[|more| - 1]
    ensures (a + front) + [x] == a + more
  {
  }

  /** What the inner loop queues for a layer: the sources of its nodes that were not visited and are new in it. */
  function Queued(g: Graph, visited: seq<NodeId>, f: seq<NodeId>): seq<NodeId> {
    if f == [] then []
    else
      var before, x := f[..|f| - 1], f[|f| - 1];
      Queued(g, visited, before) + if x in visited || x in before then [] else Inputs(g.edges, x, |g.edges|)
  }

  lemma {:induction false} QueuedHasSources(g: Graph, visited: seq<NodeId>, f: seq<NodeId>, m: NodeId, x: NodeId)
    requires m in f && m !in visited && Feeds(g, x, m)
    ensures x in Queued(g, visited, f)
    decreases |f|
  {
    var before, last := f[..|f| - 1], f[|f| - 1];
    assert f == before + [last];
    if m in before {
      QueuedHasSources(g, visited, before, m, x);
    } else {
      InputsAreSources(g.edges, m, |g.edges|, x);
    }
  }

  /** The next layer the search works on is the next full layer, thinned. */
  lemma {:induction false} QueuedIsThinned(g: Graph, visited: seq<NodeId>, f: seq<NodeId>, full: seq<NodeId>,
                                           after: seq<NodeId>)
    requires Thinned(visited, f, full)
    requires forall m, x :: m in visited && Feeds(g, x, m) ==> x in after
    ensures Thinned(after, Queued(g, visited, f), Expand(g, full))
    decreases |full|
  {
    if full != [] {
      var m, before := full[|full| - 1], full[..|full| - 1];
      var more := Inputs(g.edges, m, |g.edges|);
      if f != [] && f[|f| - 1] == m && Thinned(visited, f[..|f| - 1], before) {
        QueuedIsThinned(g, visited, f[..|f| - 1], before, after);
        if m in visited || m in f[..|f| - 1] {
          SourcesAreKnown(g, visited, f[..|f| - 1], m, after);
          ThinnedDrops(after, Queued(g, visited, f[..|f| - 1]), Expand(g, before), more);
          assert Queued(g, visited, f) == Queued(g, visited, f[..|f| - 1]);
        } else {
          ThinnedKeepsAll(after, Queued(g, visited, f[..|f| - 1]), Expand(g, before), more);
        }
      } else {
        QueuedIsThinned(g, visited, f, before, after);
        SourcesAreKnown(g, visited, f, m, after);
        ThinnedDrops(after, Queued(g, visited, f), Expand(g, before), more);
      }
    }
  }

  lemma SourcesAreKnown(g: Graph, visited: seq<NodeId>, f: seq<NodeId>, m: NodeId, after: seq<NodeId>)
    requires m in visited || m in f
    requires forall m, x :: m in visited && Feeds(g, x, m) ==> x in after
    ensures forall x :: x in Inputs(g.edges, m, |g.edges|) ==> x in after || x in Queued(g, visited, f)
  {
    forall x | x in Inputs(g.edges, m, |g.edges|) ensures x in after || x in Queued(g, visited, f) {
      InputsAreSources(g.edges, m, |g.edges|, x);
      assert Feeds(g, x, m);
      if m !in visited { QueuedHasSources(g, visited, f, m, x); }
    }
  }

  // ----- paths in edge order -----

  /** Where a path of edge numbers leads: up from `start`, one edge after the other. */
  function End(g: Graph, start: NodeId, path: seq<nat>): NodeId
    requires forall k :: 0 <= k < |path| ==> path[k] < |g.edges|
  {
    if path == [] then start else g.edges[path[|path| - 1]].from
  }

  /** Each edge of the path leads into the node the path has reached. */
  ghost predicate IsPath(g: Graph, start: NodeId, path: seq<nat>) {
    && (forall k :: 0 <= k < |path| ==> path[k] < |g.edges|)
    && forall k :: 0 <= k < |path| ==> g.edges[path[k]].to == End(g, start, path[..k])
  }

  /** At the first place where the two differ, `q` takes the earlier edge. */
  ghost predicate Earlier(q: seq<nat>, p: seq<nat>) {
    exists m :: 0 <= m < |q| && m < |p| && q[..m] == p[..m] && q[m] < p[m]
  }

  /** Of the paths to a node that stops the search, this one is shortest and, among those, the first in edge order. */
  ghost predicate StopsFirst(g: Graph, start: NodeId, p: seq<nat>) {
    && IsPath(g, start, p) && !Passable(g, start, End(g, start, p))
    && forall q :: IsPath(g, start, q) && (|q| < |p| || (|q| == |p| && Earlier(q, p))) ==>
         Passable(g, start, End(g, start, q))
  }

  /**
   * The search answers for the end of that path: with the footage it found there, or with nothing
   * if the end is stale. If no path stops it, it answers with nothing.
   */
  ghost predicate IsFirstAnswer(g: Graph, start: NodeId, found: Option<NodeId>) {
    || (exists p :: StopsFirst(g, start, p) && found == Answer(g, End(g, start, p)))
    || (found.None? && forall q :: IsPath(g, start, q) ==> Passable(g, start, End(g, start, q)))
  }

  function Answer(g: Graph, n: NodeId): Option<NodeId> {
    if n in g.nodes then Some(n) else None
  }

  lemma IsPathStep(g: Graph, start: NodeId, path: seq<nat>, k: nat)
    requires IsPath(g, start, path) && k < |g.edges| && g.edges[k].to == End(g, start, path)
    ensures IsPath(g, start, path + [k]) && End(g, start, path + [k]) == g.edges[k].from
  {
    forall j | 0 <= j < |path + [k]| ensures g.edges[(path + [k])[j]].to == End(g, start, (path + [k])[..j]) {
      assert (path + [k])[..j] == path[..j];
      if j == |path| { assert path[..j] == path; }
    }
  }

  lemma IsPathFront(g: Graph, start: NodeId, path: seq<nat>)
    requires IsPath(g, start, path) && path != []
    ensures IsPath(g, start, path[..|path| - 1])
    ensures g.edges[path[|path| - 1]].to == End(g, start, path[..|path| - 1])
  {
    var front := path[..|path| - 1];
    forall j | 0 <= j < |front| ensures g.edges[front[j]].to == End(g, start, front[..j]) {
      assert front[..j] == path[..j];
    }
  }

  lemma EarlierFront(q: seq<nat>, p: seq<nat>)
    requires Earlier(q, p) && |q| == |p|
    ensures Earlier(q[..|q| - 1], p[..|p| - 1]) || (q[..|q| - 1] == p[..|p| - 1] && q[|q| - 1] < p[|p| - 1])
  {
    var m :| 0 <= m < |q| && m < |p| && q[..m] == p[..m] && q[m] < p[m];
    if m < |q| - 1 {
      var qf, pf := q[..|q| - 1], p[..|p| - 1];
      assert qf[..m] == q[..m] && pf[..m] == p[..m];
    }
  }

  lemma {:induction false} InputsPrefix(edges: seq<Edge>, id: NodeId, k: nat, n: nat)
    requires k <= n <= |edges|
    ensures Inputs(edges, id, k) <= Inputs(edges, id, n)
  {
    if k < n { InputsPrefix(edges, id, k, n - 1); }
  }

  lemma {:induction false} ExpandPrefix(g: Graph, s: seq<NodeId>, a: nat)
    requires a <= |s|
    ensures Expand(g, s[..a]) <= Expand(g, s)
    decreases |s|
  {
    if a < |s| {
      var front := s[..|s| - 1];
      ExpandPrefix(g, front, a);
      assert front[..a] == s[..a];
    } else {
      assert s[..a] == s;
    }
  }

  /** The edge an entry of `Inputs` comes from; the edges before it that feed `id` stand before it. */
  lemma {:induction false} InputAt(edges: seq<Edge>, id: NodeId, n: nat, i: nat) returns (k: nat)
    requires n <= |edges| && i < |Inputs(edges, id, n)|
    ensures k < n && edges[k].to == id && edges[k].from == Inputs(edges, id, n)[i]
    ensures Inputs(edges, id, k) == Inputs(edges, id, n)[..i]
  {
    if i < |Inputs(edges, id, n - 1)| {
      k := InputAt(edges, id, n - 1, i);
    } else {
      k := n - 1;
    }
  }

  /** The node and the edge an entry of the next layer comes from, and what stands before it. */
  lemma {:induction false} ExpandAt(g: Graph, s: seq<NodeId>, i: nat) returns (a: nat, k: nat)
    requires i < |Expand(g, s)|
    ensures a < |s| && k < |g.edges| && g.edges[k].to == s[a] && g.edges[k].from == Expand(g, s)[i]
    ensures Expand(g, s[..a]) + Inputs(g.edges, s[a], k) == Expand(g, s)[..i]
    decreases |s|
  {
    var front, x := s[..|s| - 1], s[|s| - 1];
    var before, more := Expand(g, front), Inputs(g.edges, x, |g.edges|);
    if i < |before| {
      a, k := ExpandAt(g, front, i);
      assert front[..a] == s[..a];
      assert Expand(g, s)[..i] == before[..i];
    } else {
      a := |s| - 1;
      k := InputAt(g.edges, x, |g.edges|, i - |before|);
      assert Expand(g, s)[..i] == before + more[..i - |before|];
    }
  }

  lemma {:induction false} ExpandHasSources(g: Graph, s: seq<NodeId>, j: nat, k: nat)
    requires j < |s| && k < |g.edges| && g.edges[k].to == s[j]
    ensures g.edges[k].from in Expand(g, s)
    decreases |s|
  {
    if j < |s| - 1 {
      ExpandHasSources(g, s[..|s| - 1], j, k);
    } else {
      InputsAreSources(g.edges, s[j], |g.edges|, g.edges[k].from);
    }
  }

  /** What an earlier node or an earlier edge leads to stands further in front in the next layer. */
  lemma StandsBefore(g: Graph, s: seq<NodeId>, a: nat, k: nat, j: nat, k': nat)
    requires a < |s| && k <= |g.edges| && k' < |g.edges|
    requires j < a || (j == a && k' < k)
    requires g.edges[k'].to == s[j]
    ensures g.edges[k'].from in Expand(g, s[..a]) + Inputs(g.edges, s[a], k)
  {
    if j < a {
      ExpandHasSources(g, s[..a], j, k');
    } else {
      InputsAreSources(g.edges, s[a], k, g.edges[k'].from);
    }
  }

  /** Every place of a layer has its path; what earlier paths lead to stands before it. */
  lemma {:induction false} PathOf(g: Graph, start: NodeId, d: nat, i: nat) returns (p: seq<nat>)
    requires i < |Layer(g, start, d)|
    ensures |p| == d && IsPath(g, start, p) && End(g, start, p) == Layer(g, start, d)[i]
    ensures forall q :: |q| == d && IsPath(g, start, q) && Earlier(q, p) ==>
      End(g, start, q) in Layer(g, start, d)[..i]
    decreases d
  {
    if d == 0 {
      p := [];
    } else {
      var layer := Layer(g, start, d - 1);
      var a, k := ExpandAt(g, layer, i);
      var front := PathOf(g, start, d - 1, a);
      IsPathStep(g, start, front, k);
      p := front + [k];
      forall q | |q| == d && IsPath(g, start, q) && Earlier(q, p)
        ensures End(g, start, q) in Layer(g, start, d)[..i]
      {
        EarlierStandsBefore(g, start, layer, a, k, front, q);
      }
    }
  }

  lemma EarlierStandsBefore(g: Graph, start: NodeId, layer: seq<NodeId>, a: nat, k: nat, front: seq<nat>, q: seq<nat>)
    requires a < |layer| && k < |g.edges| && IsPath(g, start, front) && End(g, start, front) == layer[a]
    requires |q| == |front| + 1 && IsPath(g, start, q) && Earlier(q, front + [k])
    requires forall r :: |r| == |front| && IsPath(g, start, r) && Earlier(r, front) ==>
      End(g, start, r) in layer[..a]
    ensures End(g, start, q) in Expand(g, layer[..a]) + Inputs(g.edges, layer[a], k)
  {
    var r, k' := q[..|q| - 1], q[|q| - 1];
    IsPathFront(g, start, q);
    EarlierFront(q, front + [k]);
    assert (front + [k])[..|front|] == front;
    if Earlier(r, front) {
      var j :| 0 <= j < a && layer[..a][j] == End(g, start, r);
      StandsBefore(g, layer, a, k, j, k');
    } else {
      StandsBefore(g, layer, a, k, a, k');
    }
  }

  /** Every path leads into the layer of its length. */
  lemma {:induction false} PathEndsInLayer(g: Graph, start: NodeId, q: seq<nat>)
    requires IsPath(g, start, q)
    ensures End(g, start, q) in Layer(g, start, |q|)
    decreases |q|
  {
    if q != [] {
      var front := q[..|q| - 1];
      IsPathFront(g, start, q);
      PathEndsInLayer(g, start, front);
      var layer := Layer(g, start, |front|);
      var j :| 0 <= j < |layer| && layer[j] == End(g, start, front);
      ExpandHasSources(g, layer, j, q[|q| - 1]);
    }
  }

  /** The first stop of the first layer that has one is the end of the first path that stops. */
  lemma StopIsFirst(g: Graph, start: NodeId, d: nat, found: Option<NodeId>)
    requires forall k: nat :: k < d ==> NoneStops(g, start, Layer(g, start, k))
    requires FirstStop(g, start, Layer(g, start, d)).Some?
    requires found == Answer(g, FirstStop(g, start, Layer(g, start, d)).value)
    ensures IsFirstAnswer(g, start, found)
  {
    var layer := Layer(g, start, d);
    var i := FirstStopAt(g, start, layer);
    var p := PathOf(g, start, d, i);
    forall q | IsPath(g, start, q) && (|q| < |p| || (|q| == |p| && Earlier(q, p)))
      ensures Passable(g, start, End(g, start, q))
    {
      if |q| < |p| {
        PathEndsInLayer(g, start, q);
        assert NoneStops(g, start, Layer(g, start, |q|));
      } else {
        var j :| 0 <= j < i && layer[..i][j] == End(g, start, q);
        assert layer[j] == End(g, start, q);
      }
    }
    assert StopsFirst(g, start, p);
  }

  lemma {:induction false} PathReaches(g: Graph, start: NodeId, q: seq<nat>)
    requires IsPath(g, start, q)
    ensures ReachedIn(g, start, End(g, start, q), |q|)
    decreases |q|
  {
    if q != [] {
      IsPathFront(g, start, q);
      PathReaches(g, start, q[..|q| - 1]);
      assert Feeds(g, End(g, start, q), End(g, start, q[..|q| - 1]));
    }
  }

  // ----- the loops -----

  /** Whatever feeds a node of `done` is in `visited` or waits in `queue`. */
  ghost predicate Expanded(g: Graph, done: seq<NodeId>, visited: seq<NodeId>, queue: seq<NodeId>) {
    forall n, src :: n in done && Feeds(g, src, n) ==> src in visited || src in queue
  }

  ghost predicate AllReachedIn(g: Graph, start: NodeId, queue: seq<NodeId>, d: nat) {
    forall n :: n in queue ==> ReachedIn(g, start, n, d)
  }

  ghost predicate Covers(g: Graph, start: NodeId, d: nat, visited: seq<NodeId>) {
    forall n, k :: 0 <= k < d && ReachedIn(g, start, n, k) ==> n in visited
  }

  ghost predicate AllPassable(g: Graph, start: NodeId, visited: seq<NodeId>) {
    forall n :: n in visited ==> Passable(g, start, n)
  }

  /** The state between two layers: `queue` holds layer `d` and may repeat nodes. */
  ghost predicate LayerState(g: Graph, start: NodeId, d: nat, visited: seq<NodeId>, queue: seq<NodeId>) {
    && AllPassable(g, start, visited) && AllReachedIn(g, start, queue, d)
    && Expanded(g, visited, visited, queue) && Covers(g, start, d, visited)
    && forall n :: ReachedIn(g, start, n, d) ==> n in visited || n in queue
  }

  ghost function Elements(s: seq<NodeId>): set<NodeId> {
    set n | n in s
  }

  /** What is queued is one edge further up, and only new nodes queue something. */
  lemma {:induction false} QueuedIsReached(g: Graph, start: NodeId, d: nat, visited: seq<NodeId>, f: seq<NodeId>)
    requires AllReachedIn(g, start, f, d)
    ensures AllReachedIn(g, start, Queued(g, visited, f), d + 1)
    ensures Queued(g, visited, f) != [] ==> exists n :: n in f && n !in visited
    decreases |f|
  {
    if f != [] {
      var before, x := f[..|f| - 1], f[|f| - 1];
      QueuedIsReached(g, start, d, visited, before);
      forall n | n in Inputs(g.edges, x, |g.edges|) ensures ReachedIn(g, start, n, d + 1) {
        InputsAreSources(g.edges, x, |g.edges|, n);
        assert Feeds(g, n, x);
      }
    }
  }

  /** `visited'` holds what was visited and the first nodes of the layer. */
  ghost predicate Taken(visited: seq<NodeId>, done: seq<NodeId>, visited': seq<NodeId>) {
    forall n :: n in visited' <==> n in visited || n in done
  }

  lemma TakenMore(visited: seq<NodeId>, f: seq<NodeId>, i: nat, visited': seq<NodeId>)
    requires i < |f| && Taken(visited, f[..i], visited')
    ensures f[i] in visited' <==> f[i] in visited || f[i] in f[..i]
    ensures f[i] in visited' ==> Taken(visited, f[..i + 1], visited')
    ensures Taken(visited, f[..i + 1], visited' + [f[i]])
  {
    assert f[..i + 1] == f[..i] + [f[i]];
  }

  lemma QueuedMore(g: Graph, visited: seq<NodeId>, f: seq<NodeId>, i: nat)
    requires i < |f|
    ensures Queued(g, visited, f[..i + 1]) == Queued(g, visited, f[..i])
      + if f[i] in visited || f[i] in f[..i] then [] else Inputs(g.edges, f[i], |g.edges|)
  {
    assert f[..i + 1][..i] == f[..i];
  }

  /** A layer that has been worked off leaves the state of the next one. */
  lemma NextLayer(g: Graph, start: NodeId, d: nat, visited: seq<NodeId>, queue: seq<NodeId>,
                  visited': seq<NodeId>, next: seq<NodeId>)
    requires LayerState(g, start, d, visited, queue)
    requires AllPassable(g, start, visited') && AllReachedIn(g, start, next, d + 1)
    requires forall n :: n in visited || n in queue ==> n in visited'
    requires forall n, src :: n in visited' && n !in visited && Feeds(g, src, n) ==> src in next
    ensures LayerState(g, start, d + 1, visited', next)
  {
    forall n, src | n in visited' && Feeds(g, src, n) ensures src in visited' || src in next {
      if n in visited { assert src in visited || src in queue; }
    }
    forall n, k | 0 <= k < d + 1 && ReachedIn(g, start, n, k) ensures n in visited' {
      if k < d { assert n in visited; }
    }
    forall n | ReachedIn(g, start, n, d + 1) ensures n in visited' || n in next {
      var m :| ReachedIn(g, start, m, d) && Feeds(g, n, m);
      assert m in visited';
    }
  }

  lemma {:induction false} ClosedCoversAll(g: Graph, start: NodeId, visited: seq<NodeId>, n: NodeId, d: nat)
    requires start in visited && Expanded(g, visited, visited, []) && ReachedIn(g, start, n, d)
    ensures n in visited
    decreases d
  {
    if d > 0 {
      var m :| ReachedIn(g, start, m, d - 1) && Feeds(g, n, m);
      ClosedCoversAll(g, start, visited, m, d - 1);
    }
  }

  lemma FirstLayer(g: Graph, start: NodeId)
    ensures LayerState(g, start, 0, [], [start])
  {
  }

  lemma SomethingNew(g: Graph, start: NodeId, visited: seq<NodeId>, visited': seq<NodeId>)
    requires AllPassable(g, start, visited') && forall n :: n in visited ==> n in visited'
    ensures g.nodes.Keys - Elements(visited') <= g.nodes.Keys - Elements(visited)
    ensures (exists n :: n in visited' && n !in visited) ==>
      g.nodes.Keys - Elements(visited') < g.nodes.Keys - Elements(visited)
  {
    if n :| n in visited' && n !in visited {
      assert Passable(g, start, n);
      assert n in g.nodes.Keys - Elements(visited) && n !in g.nodes.Keys - Elements(visited');
    }
  }

  lemma NothingLeft(g: Graph, start: NodeId, d: nat, visited: seq<NodeId>)
    requires LayerState(g, start, d, visited, []) && start in visited
    ensures IsAnswer(g, start, None) && IsFirstAnswer(g, start, None)
  {
    forall n, k: nat | ReachedIn(g, start, n, k) ensures Passable(g, start, n) {
      ClosedCoversAll(g, start, visited, n, k);
    }
    forall q | IsPath(g, start, q) ensures Passable(g, start, End(g, start, q)) {
      PathReaches(g, start, q);
    }
  }

  /** The queue is the full layer, thinned, and no earlier layer stops the search. */
  ghost predicate OrderState(g: Graph, start: NodeId, d: nat, visited: seq<NodeId>, queue: seq<NodeId>) {
    && Thinned(visited, queue, Layer(g, start, d))
    && forall k: nat :: k < d ==> NoneStops(g, start, Layer(g, start, k))
  }

  lemma FirstOrder(g: Graph, start: NodeId)
    ensures OrderState(g, start, 0, [], [start])
  {
    var s := [start];
    assert s[..0] == [] && Thinned([], s[..0], s[..0]);
  }

  lemma NextOrder(g: Graph, start: NodeId, d: nat, visited: seq<NodeId>, queue: seq<NodeId>,
                  visited': seq<NodeId>, next: seq<NodeId>)
    requires LayerState(g, start, d, visited, queue) && OrderState(g, start, d, visited, queue)
    requires NoneStops(g, start, queue) && next == Queued(g, visited, queue)
    requires forall n :: n in visited || n in queue ==> n in visited'
    ensures OrderState(g, start, d + 1, visited', next)
  {
    var i := FirstStopAt(g, start, queue);
    ThinnedStopsAlike(g, start, visited, queue, Layer(g, start, d));
    i := FirstStopAt(g, start, Layer(g, start, d));
    QueuedIsThinned(g, visited, queue, Layer(g, start, d), visited');
  }

  /** The node the layer stops at is the first one. */
  lemma StopsHere(g: Graph, start: NodeId, s: seq<NodeId>, i: nat)
    requires StandsFirst(g, start, s, i)
    ensures FirstStop(g, start, s) == Some(s[i])
  {
    var k := FirstStopAt(g, start, s);
    assert !NoneStops(g, start, s);
  }

  /** A layer with a stop gives the answer of the whole search. */
  lemma StopEndsSearch(g: Graph, start: NodeId, d: nat, visited: seq<NodeId>, queue: seq<NodeId>,
                       found: Option<NodeId>)
    requires AllPassable(g, start, visited) && OrderState(g, start, d, visited, queue)
    requires FirstStop(g, start, queue).Some? && found == Answer(g, FirstStop(g, start, queue).value)
    ensures IsFirstAnswer(g, start, found)
  {
    ThinnedStopsAlike(g, start, visited, queue, Layer(g, start, d));
    StopIsFirst(g, start, d, found);
  }

  /** A layer without a stop leads on to the next, and to fewer nodes not visited or to an empty queue. */
  lemma LayerDone(g: Graph, start: NodeId, d: nat, visited: seq<NodeId>, f: seq<NodeId>, visited': seq<NodeId>,
                  next: seq<NodeId>)
    requires LayerState(g, start, d, visited, f) && OrderState(g, start, d, visited, f) && NoneStops(g, start, f)
    requires Taken(visited, f, visited') && next == Queued(g, visited, f)
    ensures LayerState(g, start, d + 1, visited', next) && OrderState(g, start, d + 1, visited', next)
    ensures g.nodes.Keys - Elements(visited') <= g.nodes.Keys - Elements(visited)
    ensures next != [] ==> g.nodes.Keys - Elements(visited') < g.nodes.Keys - Elements(visited)
  {
    LayerTaken(g, start, d, visited, f, visited', next);
    NextOrder(g, start, d, visited, f, visited', next);
    NextLayer(g, start, d, visited, f, visited', next);
    SomethingNew(g, start, visited, visited');
  }

  /**
   * `find_input_footage`. An answer is a nearest footage node other than the start. No
   * answer means there is none to reach, or that a stale id was met first: the `?` on the
   * lookup ends the whole search. Among equally near nodes the edge order decides.
   */
  method FindInputFootage(g: Graph, id: NodeId) returns (found: Option<NodeId>)
    ensures IsAnswer(g, id, found) && IsFirstAnswer(g, id, found)
  {
    var frontier := [id];
    var visited: seq<NodeId> := [];
    ghost var d := 0;
    FirstLayer(g, id);
    FirstOrder(g, id);
    while frontier != []
      invariant LayerState(g, id, d, visited, frontier) && OrderState(g, id, d, visited, frontier)
      invariant id in visited || id in frontier
      decreases g.nodes.Keys - Elements(visited), |frontier|
    {
      var stop, result, visited', next := SearchLayer(g, id, d, visited, frontier);
      if stop {
        StopEndsSearch(g, id, d, visited, frontier, result);
        return result;
      }
      LayerDone(g, id, d, visited, frontier, visited', next);
      frontier, visited := next, visited';
      d := d + 1;
    }
    found := None;
    NothingLeft(g, id, d, visited);
  }

  /** A layer without a stop has taken all its nodes and queued what feeds the new ones. */
  lemma LayerTaken(g: Graph, start: NodeId, d: nat, visited: seq<NodeId>, f: seq<NodeId>,
                   visited': seq<NodeId>, next: seq<NodeId>)
    requires LayerState(g, start, d, visited, f) && NoneStops(g, start, f)
    requires Taken(visited, f, visited') && next == Queued(g, visited, f)
    ensures AllPassable(g, start, visited') && AllReachedIn(g, start, next, d + 1)
    ensures forall n, src :: n in visited' && n !in visited && Feeds(g, src, n) ==> src in next
    ensures next != [] ==> exists n :: n in visited' && n !in visited
  {
    QueuedIsReached(g, start, d, visited, f);
    forall n, src | n in visited' && n !in visited && Feeds(g, src, n) ensures src in next {
      QueuedHasSources(g, visited, f, n, src);
    }
    if next != [] {
      var n :| n in f && n !in visited;
      assert n in visited';
    }
  }

  /** The search stops at node `i` of layer `d`. */
  lemma StopIsAnswer(g: Graph, start: NodeId, d: nat, visited: seq<NodeId>, f: seq<NodeId>, i: nat)
    requires LayerState(g, start, d, visited, f) && StandsFirst(g, start, f, i)
    ensures FirstStop(g, start, f) == Some(f[i])
    ensures f[i] in g.nodes ==> IsNearestFootage(g, start, f[i])
    ensures f[i] !in g.nodes ==> EndsAtStaleId(g, start)
  {
    StopsHere(g, start, f, i);
    assert ReachedIn(g, start, f[i], d);
    assert ClearBelow(g, start, d);
  }

  /** The inner loop: one layer of the search. */
  method SearchLayer(g: Graph, id: NodeId, ghost d: nat, visited: seq<NodeId>, frontier: seq<NodeId>)
    returns (stop: bool, found: Option<NodeId>, visited': seq<NodeId>, next: seq<NodeId>)
    requires LayerState(g, id, d, visited, frontier)
    ensures stop && found.Some? ==> IsNearestFootage(g, id, found.value)
    ensures stop && found.None? ==> EndsAtStaleId(g, id)
    ensures stop ==> FirstStop(g, id, frontier).Some? && found == Answer(g, FirstStop(g, id, frontier).value)
    ensures !stop ==>
      && NoneStops(g, id, frontier) && Taken(visited, frontier, visited') && next == Queued(g, visited, frontier)
  {
    stop, found, visited', next := false, None, visited, [];
    for i := 0 to |frontier|
      invariant Taken(visited, frontier[..i], visited') && next == Queued(g, visited, frontier[..i])
      invariant forall j :: 0 <= j < i ==> Passable(g, id, frontier[j])
    {
      var cur := frontier[i];
      TakenMore(visited, frontier, i, visited');
      QueuedMore(g, visited, frontier, i);
      if cur in visited' {
        VisitedIsPassable(g, id, d, visited, frontier, i);
        continue;
      }
      if cur !in g.nodes {
        StopIsAnswer(g, id, d, visited, frontier, i);
        return true, None, visited', next;
      }
      if g.nodes[cur] == FOOTAGE && cur != id {
        StopIsAnswer(g, id, d, visited, frontier, i);
        return true, Some(cur), visited', next;
      }
      var sources := InputConnections(g, cur);
      visited' := visited' + [cur];
      next := next + sources;
    }
    assert frontier[..|frontier|] == frontier;
  }

  lemma VisitedIsPassable(g: Graph, start: NodeId, d: nat, visited: seq<NodeId>, f: seq<NodeId>, i: nat)
    requires LayerState(g, start, d, visited, f) && i < |f| && (f[i] in visited || f[i] in f[..i])
    requires forall j :: 0 <= j < i ==> Passable(g, start, f[j])
    ensures Passable(g, start, f[i])
  {
    if f[i] !in visited {
      var j :| 0 <= j < i && f[..i][j] == f[i];
      assert f[j] == f[i];
    }
  }

  // ----- on a well-formed graph -----

  /** Every edge joins live nodes, as the graph's own edits keep it. */
  predicate WellFormed(g: Graph) {
    forall k :: 0 <= k < |g.edges| ==> g.edges[k].from in g.nodes && g.edges[k].to in g.nodes
  }

  lemma {:induction false} ReachedIsLive(g: Graph, start: NodeId, n: NodeId, d: nat)
    requires WellFormed(g) && start in g.nodes && ReachedIn(g, start, n, d)
    ensures n in g.nodes
  {
    if d > 0 {
      var m :| ReachedIn(g, start, m, d - 1) && Feeds(g, n, m);
    }
  }

  ghost predicate FootageIn(g: Graph, id: NodeId, n: NodeId, d: nat) {
    ReachedIn(g, id, n, d) && IsFootage(g, id, n)
  }

  /** On a well-formed graph an answer is found exactly when a footage node can be reached, and none is nearer. */
  lemma WellFormedAnswer(g: Graph, id: NodeId, found: Option<NodeId>)
    requires WellFormed(g) && id in g.nodes && IsAnswer(g, id, found)
    ensures found.Some? <==> exists n, d: nat :: FootageIn(g, id, n, d)
    ensures found.Some? ==>
      exists d: nat :: FootageIn(g, id, found.value, d) && (forall n, k: nat :: FootageIn(g, id, n, k) ==> d <= k)
  {
    if found.Some? {
      var d: nat :| ReachedIn(g, id, found.value, d) && ClearBelow(g, id, d);
      assert FootageIn(g, id, found.value, d);
      forall n, k: nat | FootageIn(g, id, n, k) ensures d <= k {
        if k < d { assert false; }
      }
    } else {
      forall n, d: nat | ReachedIn(g, id, n, d) ensures n in g.nodes {
        ReachedIsLive(g, id, n, d);
      }
    }
  }

  /**
   * Why well-formedness is asked for: on a graph with a dangling edge a stale source listed first
   * hides the footage behind the second. The graph's own edits never leave such an edge.
   */
  lemma StaleSourceHidesFootage(clip: NodeId, gone: NodeId, footage: NodeId)
    requires clip != gone && clip != footage && gone != footage
    ensures var g := Graph(map[clip := "clip", footage := FOOTAGE],
                           [Edge(gone, clip, 0, -1), Edge(footage, clip, 1, -1)]);
      EndsAtStaleId(g, clip) && ReachedIn(g, clip, footage, 1) && IsFootage(g, clip, footage)
  {
    var g := Graph(map[clip := "clip", footage := FOOTAGE],
                   [Edge(gone, clip, 0, -1), Edge(footage, clip, 1, -1)]);
    assert g.edges[0].to == clip && g.edges[1].to == clip;
    assert ReachedIn(g, clip, clip, 0);
    assert Feeds(g, gone, clip) && Feeds(g, footage, clip);
    assert ReachedIn(g, clip, gone, 1) && ReachedIn(g, clip, footage, 1);
    assert ClearBelow(g, clip, 1);
  }
}
