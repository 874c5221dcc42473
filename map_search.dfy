// The search half of kxg/misc/map.py: the bookkeeping every search shares
// (SearchAlgorithm) and the breadth-first search.  A search records, for
// every node it reaches, the node it came from (`routes`); once the target
// is reached, `target_found` walks those records back from the target to
// the source.

module MapSearch {
  import opened Wrappers

  /** An edge as a search sees it: its endpoints and whether it is active
    * (both of its nodes are). */
  datatype Arc<N> = Arc(start: N, end: N, active: bool)

  datatype RouteError<N> =
    | MissingRoute(tile: N)  // `routes[tile]` on a tile with no record: KeyError
    | RouteLoops(tile: N)    // the walk comes back to a tile: the loop never ends

  /** What the search methods as written raise: a failed walk, or a
    * NameError for a global name the module does not define. */
  datatype SearchError<N> = WalkFailed(walk: RouteError<N>) | NameError(name: string)

  /** The global names of kxg/misc/map.py: its own classes.  The module has
    * no import statement, so neither `time` nor `graph` is among them. */
  const MapModuleNames: set<string> :=
    {"Node", "Edge", "Graph", "Grid", "PriorityQueue", "IndexedPQ", "SearchAlgorithm",
     "DepthFirstSearch", "BreadthFirstSearch", "A_Star", "Dijkstra"}

  /** Looking up a global name of the module. */
  function GlobalLookup<N>(name: string): (r: Outcome<SearchError<N>>)
    ensures r.Pass? <==> name in MapModuleNames
    ensures r.Fail? ==> r.error == NameError(name)
  {
    if name in MapModuleNames then Pass else Fail(NameError(name))
  }

  /** `time.time()` and `graph.Edge` cannot be looked up, while the module's
    * own `Edge` can. */
  lemma MissingGlobals<N>()
    ensures GlobalLookup<N>("time") == Fail(NameError("time"))
    ensures GlobalLookup<N>("graph") == Fail(NameError("graph"))
    ensures GlobalLookup<N>("Edge").Pass?
  {
    assert "time" != "Edge" && "graph" != "Graph";
  }

  /** `route` starts at the target, ends at the source, and each tile before
    * the last is recorded in `routes` as coming from the next one. */
  predicate IsRoute<N(==)>(route: seq<N>, routes: map<N, N>, source: N, target: N) {
    && |route| >= 1
    && route[0] == target
    && route[|route| - 1] == source
    && forall i :: 0 <= i < |route| - 1 ==>
         route[i] != source && route[i] in routes && routes[route[i]] == route[i + 1]
  }

  /** The records lead back to the source: every recorded node other than
    * the source came from a recorded node of smaller depth. */
  predicate Ranked<N(==)>(routes: map<N, N>, source: N, depth: map<N, nat>) {
    forall k :: k in routes ==>
      k in depth && (k != source ==> routes[k] in routes && routes[k] in depth && depth[routes[k]] < depth[k])
  }

  /** A sequence with no repeated item. */
  predicate NoRepeats<N(==)>(s: seq<N>) {
    forall i, j :: 0 <= i < j < |s| ==> s[i] != s[j]
  }

  /** A sequence of distinct items, all but the last from a set, is at most
    * one longer than the set. */
  lemma {:induction false} NoRepeatsBound<N>(s: seq<N>, keys: set<N>)
    requires NoRepeats(s) && |s| >= 1
    requires forall i :: 0 <= i < |s| - 1 ==> s[i] in keys
    ensures |s| <= |keys| + 1
  {
    if |s| > 1 {
      var x := s[0];
      var rest := s[1..];
      assert forall i :: 0 <= i < |rest| - 1 ==> rest[i] == s[i + 1];
      assert x !in rest;
      NoRepeatsBound(rest, keys - {x});
    }
  }

  class SearchAlgorithm<N(==)> {
    var routes: map<N, N>
    var route: seq<N>
    var found: bool
    var searching: bool
    var startTime: real
    var searchTime: real

    constructor()
      ensures routes == map[] && route == [] && !found && !searching
      ensures startTime == 0.0 && searchTime == 0.0
    {
      routes := map[];
      route := [];
      found := false;
      searching := false;
      startTime := 0.0;
      searchTime := 0.0;
    }

    /** `search`: start the clock; `now` stands for `time.time()`. */
    method Search(now: real)
      modifies this
      ensures searching && startTime == now
      ensures routes == old(routes) && route == old(route) && found == old(found)
      ensures searchTime == old(searchTime)
    {
      searching := true;
      startTime := now;
    }

    /** `target_found`: walk the records back from the target, then store
      * the route and stop the clock. */
    method TargetFound(routes: map<N, N>, source: N, target: N, now: real, ghost depth: map<N, nat>)
      returns (r: Outcome<RouteError<N>>)
      modifies this
      ensures r.Pass? ==>
        && IsRoute(route, routes, source, target) && NoRepeats(route)
        && this.routes == routes && found && !searching
        && searchTime == now - old(startTime)
      ensures startTime == old(startTime)
      ensures r.Fail? ==> unchanged(this)
      ensures r.Fail? && r.error.MissingRoute? ==> r.error.tile != source && r.error.tile !in routes
      ensures Ranked(routes, source, depth) && (target == source || target in routes) ==> r.Pass?
    {
      var walk := WalkBack(routes, source, target, depth);
      if walk.Err? {
        return Fail(walk.error);
      }
      this.route := walk.value;
      this.routes := routes;
      found := true;
      searching := false;
      searchTime := now - startTime;
      r := Pass;
    }

    /** `search` as written: it sets `searching`, then calls `time.time()`,
      * which raises NameError. */
    method SearchAsWritten() returns (r: Outcome<SearchError<N>>)
      modifies this
      ensures r == Fail(NameError("time"))
      ensures searching && startTime == old(startTime) && searchTime == old(searchTime)
      ensures routes == old(routes) && route == old(route) && found == old(found)
    {
      searching := true;
      MissingGlobals<N>();
      r := GlobalLookup("time");
    }

    /** `target_found` as written: the walk and the stores happen, then
      * `time.time()` raises NameError before the search time is taken. */
    method TargetFoundAsWritten(routes: map<N, N>, source: N, target: N, ghost depth: map<N, nat>)
      returns (r: Outcome<SearchError<N>>)
      modifies this
      ensures r.Fail?
      ensures r.error.WalkFailed? ==> unchanged(this)
      ensures r.error.NameError? ==>
        && r.error.name == "time"
        && IsRoute(route, routes, source, target) && NoRepeats(route)
        && this.routes == routes && found && !searching
        && searchTime == old(searchTime)
      ensures Ranked(routes, source, depth) && (target == source || target in routes) ==> r == Fail(NameError("time"))
    {
      var walk := WalkBack(routes, source, target, depth);
      if walk.Err? {
        return Fail(WalkFailed(walk.error));
      }
      this.route := walk.value;
      this.routes := routes;
      found := true;
      searching := false;
      MissingGlobals<N>();
      r := GlobalLookup("time");
    }

    /** `target_not_found` as written: the stores happen, then `time.time()`
      * raises NameError. */
    method TargetNotFoundAsWritten(routes: map<N, N>) returns (r: Outcome<SearchError<N>>)
      modifies this
      ensures r == Fail(NameError("time"))
      ensures route == [] && this.routes == routes && !found && !searching
      ensures searchTime == old(searchTime) && startTime == old(startTime)
    {
      route := [];
      this.routes := routes;
      found := false;
      searching := false;
      MissingGlobals<N>();
      r := GlobalLookup("time");
    }

    /** BreadthFirstSearch's `search` as written: the base `search` raises
      * at `time.time()` before a single node is explored, and past it
      * `graph.Edge(source, source)` would raise too; no search ever runs. */
    method BreadthFirstSearchAsWritten(source: N, target: N) returns (r: Outcome<SearchError<N>>)
      modifies this
      ensures r == Fail(NameError("time"))
      ensures GlobalLookup<N>("graph").Fail?
      ensures searching && routes == old(routes) && route == old(route) && found == old(found)
      ensures searchTime == old(searchTime)
    {
      r := SearchAsWritten();
      MissingGlobals<N>();
    }

    /** BreadthFirstSearch's `search`: explore from the source, then store
      * the route to the target if it was reached.  `edgesFrom` stands for
      * the map's `get_edges_from`, `start` and `finish` for the clock at
      * the beginning and at the end. */
    method BreadthFirstSearch(edgesFrom: N -> seq<Arc<N>>, nodes: set<N>, source: N, target: N,
                              start: real, finish: real)
      modifies this
      requires source in nodes
      requires forall n, a :: n in nodes && a in edgesFrom(n) ==> a.start == n && a.end in nodes
      ensures !searching && startTime == start && searchTime == finish - start
      ensures source in routes && Recorded(routes, edgesFrom, source)
      ensures found <==> target in routes
      ensures found ==> IsRoute(route, routes, source, target) && NoRepeats(route)
      ensures found ==> forall i :: 0 <= i < |route| - 1 ==> Arc(route[i + 1], route[i], true) in edgesFrom(route[i + 1])
      ensures !found ==> route == []
    {
      Search(start);
      var records, reached, depth := Explore(edgesFrom, nodes, source, target);
      if reached {
        var r := TargetFound(records, source, target, finish, depth);
        assert r.Pass?;
      } else {
        TargetNotFound(records, finish);
      }
    }

    /** `target_not_found`: an empty route, and the clock stopped. */
    method TargetNotFound(routes: map<N, N>, now: real)
      modifies this
      ensures route == [] && this.routes == routes && !found && !searching
      ensures searchTime == now - old(startTime) && startTime == old(startTime)
    {
      route := [];
      this.routes := routes;
      found := false;
      searching := false;
      searchTime := now - startTime;
    }
  }

  /** The loop of `target_found`: from the target, follow the records until
    * the source.  A walk that reaches a tile with no record fails; one that
    * comes back to a tile it already passed would never reach the source,
    * and is reported instead. */
  method WalkBack<N(==)>(routes: map<N, N>, source: N, target: N, ghost depth: map<N, nat>)
    returns (r: Result<seq<N>, RouteError<N>>)
    ensures r.Ok? ==> IsRoute(r.value, routes, source, target) && NoRepeats(r.value)
    ensures r.Err? && r.error.MissingRoute? ==> r.error.tile != source && r.error.tile !in routes
    ensures Ranked(routes, source, depth) && (target == source || target in routes) ==> r.Ok?
  {
    ghost var ranked := Ranked(routes, source, depth);
    ghost var reachable := target == source || target in routes;
    var tile := target;
    var walk := [tile];
    while tile != source
      invariant |walk| >= 1 && walk[0] == target && walk[|walk| - 1] == tile
      invariant NoRepeats(walk)
      invariant forall i :: 0 <= i < |walk| - 1 ==>
        walk[i] != source && walk[i] in routes && routes[walk[i]] == walk[i + 1]
      invariant ranked && reachable ==> Descending(walk, routes, source, depth)
      decreases |routes| + 1 - |walk|
    {
      if tile !in routes {
        if ranked && reachable {
          assert false;
        }
        return Err(MissingRoute(tile));
      }
      var next := routes[tile];
      if next in walk {
        if ranked && reachable {
          assert false;
        }
        return Err(RouteLoops(next));
      }
      NoRepeatsSnoc(walk, next);
      NoRepeatsBound(walk + [next], routes.Keys);
      if ranked && reachable {
        DescendingSnoc(walk, routes, source, depth);
      }
      walk := walk + [next];
      tile := next;
    }
    r := Ok(walk);
  }

  /** The state of the walk over ranked records: the last tile is recorded
    * (or is the source) and every earlier tile is deeper. */
  predicate Descending<N(==)>(walk: seq<N>, routes: map<N, N>, source: N, depth: map<N, nat>)
    requires |walk| >= 1
  {
    var tile := walk[|walk| - 1];
    && Ranked(routes, source, depth)
    && (tile == source || tile in routes)
    && (tile in routes ==> forall i :: 0 <= i < |walk| - 1 ==> walk[i] in depth && depth[walk[i]] > depth[tile])
  }

  lemma DescendingSnoc<N>(walk: seq<N>, routes: map<N, N>, source: N, depth: map<N, nat>)
    requires |walk| >= 1 && Descending(walk, routes, source, depth)
    requires walk[|walk| - 1] in routes && walk[|walk| - 1] != source
    ensures Descending(walk + [routes[walk[|walk| - 1]]], routes, source, depth)
  {
  }

  lemma NoRepeatsSnoc<N>(s: seq<N>, x: N)
    requires NoRepeats(s) && x !in s
    ensures NoRepeats(s + [x])
  {
  }

  /** Every recorded node other than the source was reached along an active
    * edge from the node recorded for it. */
  predicate Recorded<N(==)>(records: map<N, N>, edgesFrom: N -> seq<Arc<N>>, source: N) {
    forall k :: k in records && k != source ==> Arc(records[k], k, true) in edgesFrom(records[k])
  }

  /** Queued edges lead to distinct nodes already seen but not yet recorded. */
  predicate QueueFresh<N(==)>(queue: seq<Arc<N>>, visited: set<N>, records: map<N, N>) {
    && (forall i :: 0 <= i < |queue| ==> queue[i].end in visited && queue[i].end !in records)
    && (forall i, j :: 0 <= i < j < |queue| ==> queue[i].end != queue[j].end)
  }

  /** Every queued edge but the dummy one into the source is an active edge
    * out of a recorded node. */
  predicate QueueArcs<N(==)>(queue: seq<Arc<N>>, records: map<N, N>, edgesFrom: N -> seq<Arc<N>>, source: N) {
    forall i :: 0 <= i < |queue| && queue[i].end != source ==>
      queue[i].start in records && queue[i].active && queue[i] in edgesFrom(queue[i].start)
  }

  /** The state of the breadth-first loop. */
  ghost predicate Frontier<N>(edgesFrom: N -> seq<Arc<N>>, nodes: set<N>, source: N,
                                  records: map<N, N>, visited: set<N>, queue: seq<Arc<N>>,
                                  depth: map<N, nat>, clock: nat) {
    && source in visited && visited <= nodes && records.Keys <= visited
    && (records == map[] ==> queue == [Arc(source, source, true)])
    && QueueFresh(queue, visited, records)
    && QueueArcs(queue, records, edgesFrom, source)
    && Ranked(records, source, depth) && depth.Keys == records.Keys
    && (forall k :: k in depth ==> depth[k] < clock)
    && Recorded(records, edgesFrom, source)
  }

  /** The exploring loop of BreadthFirstSearch's `search`.  The result says
    * whether the target was reached; the records (`routes`) lead back to
    * the source along active edges. */
  method Explore<N(==)>(edgesFrom: N -> seq<Arc<N>>, nodes: set<N>, source: N, target: N)
    returns (records: map<N, N>, reached: bool, ghost depth: map<N, nat>)
    requires source in nodes
    requires forall n, a :: n in nodes && a in edgesFrom(n) ==> a.start == n && a.end in nodes
    ensures source in records && Ranked(records, source, depth) && Recorded(records, edgesFrom, source)
    ensures reached <==> target in records
  {
    records := map[];
    var visited := {source};
    var queue := [Arc(source, source, true)];
    depth := map[];
    ghost var clock: nat := 0;
    reached := false;
    while queue != []
      invariant Frontier(edgesFrom, nodes, source, records, visited, queue, depth, clock)
      invariant target !in records && (records != map[] ==> source in records)
      decreases |nodes - visited|, |queue|
    {
      var records', visited', queue', reached', depth', clock' :=
        Visit(edgesFrom, nodes, source, target, records, visited, queue, depth, clock);
      if reached' {
        records, reached, depth := records', true, depth';
        return;
      }
      records, visited, queue, depth, clock := records', visited', queue', depth', clock';
    }
  }

  /** One round of the exploring loop: take the first queued edge, record
    * where it came from, stop if it reached the target, and otherwise queue
    * the edges out of it. */
  method Visit<N(==)>(edgesFrom: N -> seq<Arc<N>>, ghost nodes: set<N>, source: N, target: N,
                      records: map<N, N>, visited: set<N>, queue: seq<Arc<N>>,
                      ghost depth: map<N, nat>, ghost clock: nat)
    returns (records': map<N, N>, visited': set<N>, queue': seq<Arc<N>>, reached: bool,
             ghost depth': map<N, nat>, ghost clock': nat)
    requires forall n, a :: n in nodes && a in edgesFrom(n) ==> a.start == n && a.end in nodes
    requires Frontier(edgesFrom, nodes, source, records, visited, queue, depth, clock)
    requires queue != [] && target !in records && (records != map[] ==> source in records)
    ensures reached <==> target in records'
    ensures source in records' && Ranked(records', source, depth') && Recorded(records', edgesFrom, source)
    ensures !reached ==> Frontier(edgesFrom, nodes, source, records', visited', queue', depth', clock')
    ensures !reached ==> |nodes - visited'| < |nodes - visited| || (visited' == visited && |queue'| < |queue|)
  {
    PopKeeps(edgesFrom, nodes, source, records, visited, queue, depth, clock);
    PopKeepsQueue(edgesFrom, source, records, visited, queue);
    var edge := queue[0];
    records' := records[edge.end := edge.start];
    depth' := depth[edge.end := clock];
    clock' := clock + 1;
    visited', queue' := visited, queue[1..];
    reached := edge.end == target;
    if reached {
      return;
    }
    assert forall k :: 0 <= k < |edgesFrom(edge.end)| ==> edgesFrom(edge.end)[k] in edgesFrom(edge.end);
    visited', queue' := PushArcs(edgesFrom(edge.end), edgesFrom, nodes, source, edge.end, records', visited, queue[1..]);
    if visited' != visited {
      var x :| x in visited' && x !in visited;
      assert x in nodes - visited && x !in nodes - visited';
      SmallerSet(nodes - visited', nodes - visited, x);
    }
  }

  /** A set missing an element of a superset is smaller. */
  lemma SmallerSet<N>(a: set<N>, b: set<N>, x: N)
    requires a <= b && x in b && x !in a
    ensures |a| < |b|
  {
    assert b == a + (b - a) && x in b - a;
  }

  /** Recording the node the first queued edge leads to keeps the records
    * ranked and made of active edges. */
  lemma PopKeeps<N>(edgesFrom: N -> seq<Arc<N>>, nodes: set<N>, source: N,
                    records: map<N, N>, visited: set<N>, queue: seq<Arc<N>>,
                    depth: map<N, nat>, clock: nat)
    requires Frontier(edgesFrom, nodes, source, records, visited, queue, depth, clock)
    requires queue != []
    ensures var e := queue[0];
            var records' := records[e.end := e.start];
            var depth' := depth[e.end := clock];
            && records'.Keys <= visited
            && Ranked(records', source, depth') && depth'.Keys == records'.Keys
            && (forall k :: k in depth' ==> depth'[k] < clock + 1)
            && Recorded(records', edgesFrom, source)
  {
    var e := queue[0];
    assert e.end != source ==> e.start in records && e.start != e.end;
  }

  /** ... and leaves the rest of the queue fresh. */
  lemma PopKeepsQueue<N>(edgesFrom: N -> seq<Arc<N>>, source: N,
                         records: map<N, N>, visited: set<N>, queue: seq<Arc<N>>)
    requires QueueFresh(queue, visited, records) && QueueArcs(queue, records, edgesFrom, source)
    requires queue != []
    ensures var records' := records[queue[0].end := queue[0].start];
            && QueueFresh(queue[1..], visited, records')
            && QueueArcs(queue[1..], records', edgesFrom, source)
  {
    var records' := records[queue[0].end := queue[0].start];
    forall i | 0 <= i < |queue| - 1
      ensures queue[1..][i].end !in records'
    {
      assert queue[1..][i] == queue[i + 1];
    }
  }

  /** The inner loop of BreadthFirstSearch's `search`: queue each active
    * edge out of `end` to a node not seen yet, and mark that node seen. */
  method PushArcs<N(==)>(arcs: seq<Arc<N>>, ghost edgesFrom: N -> seq<Arc<N>>, ghost nodes: set<N>,
                         ghost source: N, end: N, records: map<N, N>, visited: set<N>, queue: seq<Arc<N>>)
    returns (visited': set<N>, queue': seq<Arc<N>>)
    requires arcs == edgesFrom(end) && end in records
    requires forall k :: 0 <= k < |arcs| ==> arcs[k].start == end && arcs[k].end in nodes
    requires visited <= nodes && records.Keys <= visited
    requires QueueFresh(queue, visited, records) && QueueArcs(queue, records, edgesFrom, source)
    ensures visited <= visited' <= nodes && (visited' == visited ==> queue' == queue)
    ensures records.Keys <= visited'
    ensures QueueFresh(queue', visited', records) && QueueArcs(queue', records, edgesFrom, source)
  {
    visited', queue' := visited, queue;
    for j := 0 to |arcs|
      invariant visited <= visited' <= nodes && (visited' == visited ==> queue' == queue)
      invariant records.Keys <= visited'
      invariant QueueFresh(queue', visited', records) && QueueArcs(queue', records, edgesFrom, source)
    {
      var arc := arcs[j];
      if arc.active && arc.end !in visited' {
        queue' := queue' + [arc];
        visited' := visited' + {arc.end};
      }
    }
  }
}
