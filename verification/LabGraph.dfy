/** The graph core of lab assurance: reachability with an omitted node or edge, and the reported path
    to every device (`backend/app/lab_assurance.py`). */
module LabGraph {
  import opened Common
  import opened Walks
  import opened Sorting

  datatype EdgeKind = Physical | PortChannelMember | L2Membership | L3Gateway | RoutingAdjacency | Expected

  datatype HopState = Proven | Inferred | ExpectedHop | Ambiguous | Unknown

  datatype Edge = Edge(id: Id, from: Id, to: Id, fromInterface: Option<string>, toInterface: Option<string>,
                       kind: EdgeKind, state: HopState, evidence: seq<Id>)

  datatype Role = Switch | Router | Gateway | AccessPoint | Endpoint | UnknownRole

  datatype Device = Device(id: Id, caption: string, role: Role, primary: bool)

  predicate Touches(e: Edge, a: Id, b: Id) {
    (e.from == a && e.to == b) || (e.from == b && e.to == a)
  }

  // ----- reachability -----

  predicate Keeps(e: Edge, omittedNode: Option<Id>, omittedEdge: Option<Id>) {
    && omittedEdge != Some(e.id)
    && e.kind != PortChannelMember && e.kind != Expected
    && omittedNode != Some(e.from) && omittedNode != Some(e.to)
  }

  /** The pairs joined by the edges that `_reachable` retains. */
  ghost function Graph(edges: seq<Edge>, omittedNode: Option<Id>, omittedEdge: Option<Id>): Pairs {
    set e | e in edges && Keeps(e, omittedNode, omittedEdge) :: (e.from, e.to)
  }

  function Neighbours(adjacency: map<Id, set<Id>>, node: Id): set<Id> {
    if node in adjacency then adjacency[node] else {}
  }

  method NeighbourSets(edges: seq<Edge>, omittedNode: Option<Id>, omittedEdge: Option<Id>)
    returns (adjacency: map<Id, set<Id>>)
    ensures forall a, b :: b in Neighbours(adjacency, a) <==> Adjacent(Graph(edges, omittedNode, omittedEdge), a, b)
  {
    adjacency := map[];
    for i := 0 to |edges|
      invariant forall a, b :: b in Neighbours(adjacency, a) <==>
                               Adjacent(Graph(edges[..i], omittedNode, omittedEdge), a, b)
    {
      var edge := edges[i];
      assert edges[..i + 1] == edges[..i] + [edge];
      assert Graph(edges[..i + 1], omittedNode, omittedEdge) ==
             Graph(edges[..i], omittedNode, omittedEdge) +
             (if Keeps(edge, omittedNode, omittedEdge) then {(edge.from, edge.to)} else {});
      if Keeps(edge, omittedNode, omittedEdge) {
        ghost var before := adjacency;
        adjacency := adjacency[edge.from := Neighbours(adjacency, edge.from) + {edge.to}];
        adjacency := adjacency[edge.to := Neighbours(adjacency, edge.to) + {edge.from}];
        forall a: Id, b: Id
          ensures b in Neighbours(adjacency, a) <==> b in Neighbours(before, a) || Touches(edge, a, b)
        {
        }
      }
    }
    assert edges[..|edges|] == edges;
  }

  /** Breadth-first search finds exactly the nodes connected to `start` in the retained graph. The order
      in which a Python set yields neighbours is left open. */
  method Reachable(start: Id, edges: seq<Edge>, omittedNode: Option<Id>, omittedEdge: Option<Id>)
    returns (seen: set<Id>)
    ensures seen == Component(Graph(edges, omittedNode, omittedEdge), start)
  {
    ghost var graph := Graph(edges, omittedNode, omittedEdge);
    ghost var component := Component(graph, start);
    ComponentClosed(graph, start);
    var adjacency := NeighbourSets(edges, omittedNode, omittedEdge);
    seen := {start};
    var queue := [start];
    while queue != []
      invariant start in seen && seen <= component
      invariant forall v :: v in queue ==> v in seen
      invariant forall u, v :: u in seen && u !in queue && Adjacent(graph, u, v) ==> v in seen
      decreases component - seen, |queue|
    {
      var node := queue[0];
      ghost var seenBefore, queueBefore := seen, queue;
      queue := queue[1..];
      var pending := Neighbours(adjacency, node);
      while pending != {}
        invariant pending <= Neighbours(adjacency, node)
        invariant seenBefore <= seen <= component
        invariant seen == seenBefore ==> |queue| < |queueBefore|
        invariant forall v :: v in queue ==> v in seen
        invariant forall v :: v in queueBefore && v != node ==> v in queue
        invariant forall v :: v in seen && v !in seenBefore ==> v in queue
        invariant forall v :: v in Neighbours(adjacency, node) ==> v in seen || v in pending
      {
        var neighbour :| neighbour in pending;
        pending := pending - {neighbour};
        if neighbour !in seen {
          seen := seen + {neighbour};
          queue := queue + [neighbour];
        }
      }
    }
    forall v | v in component ensures v in seen {
      StaysInside(graph, seen, start, v);
    }
  }

  // ----- reported paths -----

  /** The pairs joined by the edges that `_paths` retains; unlike `_reachable` it keeps EXPECTED edges. */
  ghost function PathGraph(edges: seq<Edge>): Pairs {
    set e | e in edges && e.kind != PortChannelMember :: (e.from, e.to)
  }

  type Incidence = map<Id, seq<(Id, Edge)>>

  function Incident(adjacency: Incidence, node: Id): seq<(Id, Edge)> {
    if node in adjacency then adjacency[node] else []
  }

  ghost predicate Usable(edges: seq<Edge>, e: Edge, a: Id, b: Id) {
    e in edges && e.kind != PortChannelMember && Touches(e, a, b)
  }

  ghost predicate Indexes(adjacency: Incidence, edges: seq<Edge>) {
    forall a: Id, b: Id, e: Edge :: (b, e) in Incident(adjacency, a) <==> Usable(edges, e, a, b)
  }

  method IncidenceLists(edges: seq<Edge>) returns (adjacency: Incidence)
    ensures Indexes(adjacency, edges)
  {
    adjacency := map[];
    for i := 0 to |edges|
      invariant Indexes(adjacency, edges[..i])
    {
      var edge := edges[i];
      assert edges[..i + 1] == edges[..i] + [edge];
      if edge.kind != PortChannelMember {
        ghost var before := adjacency;
        adjacency := adjacency[edge.from := Incident(adjacency, edge.from) + [(edge.to, edge)]];
        adjacency := adjacency[edge.to := Incident(adjacency, edge.to) + [(edge.from, edge)]];
        forall a: Id, b: Id, e: Edge
          ensures (b, e) in Incident(adjacency, a) <==> (b, e) in Incident(before, a) || (e == edge && Touches(e, a, b))
        {
        }
      }
    }
    assert edges[..|edges|] == edges;
  }

  type Previous = map<Id, Option<(Id, Edge)>>

  /** `v` hangs one hop below a discovered node, by a usable edge. */
  ghost predicate Hangs(edges: seq<Edge>, previous: Previous, depth: map<Id, nat>, v: Id) {
    && v in previous && v in depth && previous[v].Some?
    && previous[v].value.0 in previous && previous[v].value.0 in depth
    && Usable(edges, previous[v].value.1, previous[v].value.0, v)
    && depth[v] == depth[previous[v].value.0] + 1
  }

  /** `previous` is a tree rooted at the primary; `depth` counts the hops down it. */
  ghost predicate Tree(edges: seq<Edge>, primary: Id, previous: Previous, depth: map<Id, nat>) {
    && previous.Keys == depth.Keys
    && primary in previous && previous[primary] == None && depth[primary] == 0
    && forall v: Id {:trigger Hangs(edges, previous, depth, v)} ::
         v in previous && v != primary ==> Hangs(edges, previous, depth, v)
  }

  /** Queue order is depth order, and the frontier spans at most two depths. */
  ghost predicate Layered(queue: seq<Id>, depth: map<Id, nat>) {
    && (forall i :: 0 <= i < |queue| ==> queue[i] in depth)
    && (forall i, j :: 0 <= i < j < |queue| ==> depth[queue[i]] <= depth[queue[j]])
    && (forall i :: 0 <= i < |queue| ==> depth[queue[i]] <= depth[queue[0]] + 1)
  }

  /** Every discovered node that left the queue has all its neighbours discovered, at most one deeper. */
  ghost predicate Expanded(graph: Pairs, queue: seq<Id>, depth: map<Id, nat>) {
    forall u: Id :: u in depth && u !in queue ==>
                  && (queue != [] && queue[0] in depth ==> depth[u] <= depth[queue[0]])
                  && forall v: Id :: Adjacent(graph, u, v) ==> v in depth && depth[v] <= depth[u] + 1
  }

  /** Any walk from the primary either ends at a discovered node no deeper than its length, or is longer
      than the depth of the queue's front. */
  lemma {:induction false} WalkBound(graph: Pairs, queue: seq<Id>, depth: map<Id, nat>, walk: seq<Id>)
    requires Layered(queue, depth) && Expanded(graph, queue, depth)
    requires IsWalk(graph, walk) && walk[0] in depth && depth[walk[0]] == 0
    ensures var last := walk[|walk| - 1];
            || (last in depth && depth[last] < |walk|)
            || (queue != [] && depth[queue[0]] < |walk| - 1)
  {
    if |walk| > 1 {
      var init := walk[..|walk| - 1];
      assert forall i :: 0 <= i < |init| - 1 ==> Adjacent(graph, init[i], init[i + 1]);
      WalkBound(graph, queue, depth, init);
      assert Adjacent(graph, walk[|walk| - 2], walk[|walk| - 1]);
    }
  }

  /** What holds while the neighbours of `current` are being discovered. */
  ghost predicate Expanding(graph: Pairs, queue: seq<Id>, depth: map<Id, nat>, current: Id) {
    && current in depth
    && (forall i :: 0 <= i < |queue| ==> queue[i] in depth && depth[current] <= depth[queue[i]] <= depth[current] + 1)
    && (forall i, j :: 0 <= i < j < |queue| ==> depth[queue[i]] <= depth[queue[j]])
    && forall u: Id :: u in depth && u !in queue && u != current ==>
                     && depth[u] <= depth[current]
                     && forall v: Id :: Adjacent(graph, u, v) ==> v in depth && depth[v] <= depth[u] + 1
  }

  ghost predicate Within(depth: map<Id, nat>, current: Id, v: Id) {
    v in depth && current in depth && depth[v] <= depth[current] + 1
  }

  ghost predicate StillWithin(depth: map<Id, nat>, depth': map<Id, nat>, current: Id) {
    forall u: Id :: Within(depth, current, u) ==> Within(depth', current, u)
  }

  lemma Discover(graph: Pairs, queue: seq<Id>, depth: map<Id, nat>, current: Id, v: Id)
    requires Expanding(graph, queue, depth, current) && v !in depth
    ensures Expanding(graph, queue + [v], depth[v := depth[current] + 1], current)
    ensures StillWithin(depth, depth[v := depth[current] + 1], current)
  {
    var queue', depth' := queue + [v], depth[v := depth[current] + 1];
    assert v !in queue;
    assert forall i :: 0 <= i < |queue| ==> queue'[i] == queue[i] && queue[i] in depth';
    assert forall u :: u in queue' <==> u in queue || u == v;
  }

  lemma Popped(graph: Pairs, queue: seq<Id>, depth: map<Id, nat>)
    requires queue != [] && Layered(queue, depth) && Expanded(graph, queue, depth)
    ensures Expanding(graph, queue[1..], depth, queue[0])
  {
    assert forall u :: u in queue <==> u in queue[1..] || u == queue[0];
  }

  type Row = seq<(Id, Edge)>

  ghost predicate RowUsable(edges: seq<Edge>, current: Id, row: Row) {
    forall i :: 0 <= i < |row| ==> Usable(edges, row[i].1, current, row[i].0)
  }

  ghost predicate RowWithin(row: Row, depth: map<Id, nat>, current: Id) {
    forall i :: 0 <= i < |row| ==> Within(depth, current, row[i].0)
  }

  lemma RowExtends(row: Row, entry: (Id, Edge), depth: map<Id, nat>, depth': map<Id, nat>, current: Id)
    requires RowWithin(row, depth, current)
    requires StillWithin(depth, depth', current) && Within(depth', current, entry.0)
    ensures RowWithin(row + [entry], depth', current)
  {
  }

  lemma RowOf(edges: seq<Edge>, adjacency: Incidence, current: Id)
    requires Indexes(adjacency, edges)
    ensures RowUsable(edges, current, Incident(adjacency, current))
  {
    var row := Incident(adjacency, current);
    forall i | 0 <= i < |row| ensures Usable(edges, row[i].1, current, row[i].0) {
      assert (row[i].0, row[i].1) in row;
    }
  }

  /** Once the whole row has been handled, `current` is expanded too. */
  lemma RowDone(edges: seq<Edge>, adjacency: Incidence, queue: seq<Id>, depth: map<Id, nat>, current: Id)
    requires Indexes(adjacency, edges) && Expanding(PathGraph(edges), queue, depth, current)
    requires RowWithin(Incident(adjacency, current), depth, current)
    ensures Layered(queue, depth) && Expanded(PathGraph(edges), queue, depth)
  {
    forall v: Id | Adjacent(PathGraph(edges), current, v) ensures Within(depth, current, v) {
      var e :| e in edges && e.kind != PortChannelMember && Touches(e, current, v);
      assert Usable(edges, e, current, v);
      assert (v, e) in Incident(adjacency, current);
    }
  }

  lemma UsableJoins(edges: seq<Edge>, e: Edge, a: Id, b: Id)
    requires Usable(edges, e, a, b)
    ensures Adjacent(PathGraph(edges), a, b) && b in Ends(PathGraph(edges))
  {
    assert (e.from, e.to) in PathGraph(edges);
  }

  lemma Grow(edges: seq<Edge>, primary: Id, previous: Previous, depth: map<Id, nat>, u: Id, e: Edge, v: Id)
    requires Tree(edges, primary, previous, depth) && u in previous && v !in previous && Usable(edges, e, u, v)
    ensures Tree(edges, primary, previous[v := Some((u, e))], depth[v := depth[u] + 1])
  {
    var previous', depth' := previous[v := Some((u, e))], depth[v := depth[u] + 1];
    forall w: Id | w in previous' && w != primary ensures Hangs(edges, previous', depth', w) {
      assert w != v ==> Hangs(edges, previous, depth, w);
    }
  }

  lemma {:induction false} TreeConnected(edges: seq<Edge>, primary: Id, previous: Previous, depth: map<Id, nat>, v: Id)
    requires Tree(edges, primary, previous, depth) && v in previous
    ensures Connected(PathGraph(edges), primary, v)
    decreases depth[v]
  {
    if v == primary {
      Reflexive(PathGraph(edges), primary);
    } else {
      assert Hangs(edges, previous, depth, v);
      var (u, e) := previous[v].value;
      TreeConnected(edges, primary, previous, depth, u);
      assert (e.from, e.to) in PathGraph(edges);
      Step(PathGraph(edges), primary, u, v);
    }
  }

  /** When the search stops, the target's depth is its distance, and it is undiscovered only if unreachable. */
  lemma Stopped(edges: seq<Edge>, primary: Id, target: Id, queue: seq<Id>, previous: Previous, depth: map<Id, nat>)
    requires Tree(edges, primary, previous, depth)
    requires Layered(queue, depth) && Expanded(PathGraph(edges), queue, depth)
    requires queue == [] || target in previous
    ensures target in previous <==> Connected(PathGraph(edges), primary, target)
    ensures forall walk :: Joins(PathGraph(edges), walk, primary, target) ==>
              target in previous && depth[target] < |walk|
  {
    forall walk | Joins(PathGraph(edges), walk, primary, target)
      ensures target in depth && depth[target] < |walk|
    {
      WalkBound(PathGraph(edges), queue, depth, walk);
      assert queue != [] && target !in queue ==> depth[target] <= depth[queue[0]];
    }
    if target in previous {
      TreeConnected(edges, primary, previous, depth, target);
    }
  }

  /** A bound on the number of discoveries, for termination. */
  ghost function Universe(edges: seq<Edge>, primary: Id): set<Id> {
    {primary} + Ends(PathGraph(edges))
  }

  lemma SubsetSize(small: set<Id>, large: set<Id>)
    requires small <= large
    ensures |small| <= |large|
  {
    if small != {} {
      var x :| x in small;
      SubsetSize(small - {x}, large - {x});
    }
  }

  lemma Bounded(edges: seq<Edge>, primary: Id, previous: Previous, depth: map<Id, nat>)
    requires Tree(edges, primary, previous, depth)
    ensures |previous| <= |Universe(edges, primary)|
  {
    forall v | v in previous.Keys ensures v in Universe(edges, primary) {
      if v != primary {
        assert Hangs(edges, previous, depth, v);
        UsableJoins(edges, previous[v].value.1, previous[v].value.0, v);
      }
    }
    SubsetSize(previous.Keys, Universe(edges, primary));
    assert |previous| == |previous.Keys|;
  }

  /** A node discovered earlier is no deeper than one beyond the current one. */
  lemma MetBefore(edges: seq<Edge>, primary: Id, previous: Previous, depth: map<Id, nat>, queue: seq<Id>, current: Id,
                  v: Id)
    requires Tree(edges, primary, previous, depth) && Expanding(PathGraph(edges), queue, depth, current) &&
             v in previous
    ensures Within(depth, current, v)
  {
    if v in queue {
      var i :| 0 <= i < |queue| && queue[i] == v;
    }
  }

  /** One neighbour of the node just taken from the queue: discovered, or met before. */
  method Meet(primary: Id, edges: seq<Edge>, current: Id, neighbour: Id, edge: Edge,
              previous: Previous, queue: seq<Id>, ghost depth: map<Id, nat>)
    returns (previous': Previous, queue': seq<Id>, ghost depth': map<Id, nat>)
    requires Usable(edges, edge, current, neighbour)
    requires Tree(edges, primary, previous, depth) && Expanding(PathGraph(edges), queue, depth, current)
    ensures Tree(edges, primary, previous', depth') && Expanding(PathGraph(edges), queue', depth', current)
    ensures StillWithin(depth, depth', current) && Within(depth', current, neighbour)
    ensures if neighbour in previous then previous' == previous && queue' == queue
            else previous' == previous[neighbour := Some((current, edge))] && queue' == queue + [neighbour]
    ensures |previous'| > |previous| || (|previous'| == |previous| && queue' == queue)
  {
    previous', queue', depth' := previous, queue, depth;
    if neighbour in previous {
      MetBefore(edges, primary, previous, depth, queue, current, neighbour);
    } else {
      Discover(PathGraph(edges), queue, depth, current, neighbour);
      Grow(edges, primary, previous, depth, current, edge, neighbour);
      previous' := previous[neighbour := Some((current, edge))];
      depth' := depth[neighbour := depth[current] + 1];
      queue' := queue + [neighbour];
    }
  }

  /** The body of the search: discover the neighbours of the node just taken from the queue. */
  method Expand(primary: Id, edges: seq<Edge>, row: Row, current: Id,
                previous: Previous, queue: seq<Id>, ghost depth: map<Id, nat>)
    returns (previous': Previous, queue': seq<Id>, ghost depth': map<Id, nat>)
    requires RowUsable(edges, current, row)
    requires Tree(edges, primary, previous, depth) && Expanding(PathGraph(edges), queue, depth, current)
    ensures Tree(edges, primary, previous', depth')
    ensures Expanding(PathGraph(edges), queue', depth', current) && RowWithin(row, depth', current)
    ensures |previous'| > |previous| || (|previous'| == |previous| && queue' == queue)
  {
    previous', queue', depth' := previous, queue, depth;
    for i := 0 to |row|
      invariant Tree(edges, primary, previous', depth')
      invariant Expanding(PathGraph(edges), queue', depth', current)
      invariant |previous'| > |previous| || (|previous'| == |previous| && queue' == queue)
      invariant RowWithin(row[..i], depth', current)
    {
      var (neighbour, edge) := row[i];
      ghost var depthBefore := depth';
      assert Usable(edges, edge, current, neighbour);
      previous', queue', depth' := Meet(primary, edges, current, neighbour, edge, previous', queue', depth');
      RowExtends(row[..i], row[i], depthBefore, depth', current);
      PrefixNext(row, i);
    }
    assert row[..|row|] == row;
  }

  /** The search for one target: stops as soon as the target has been discovered. */
  method Search(primary: Id, target: Id, edges: seq<Edge>, adjacency: Incidence)
    returns (previous: Previous, ghost depth: map<Id, nat>)
    requires Indexes(adjacency, edges)
    ensures Tree(edges, primary, previous, depth)
    ensures target in previous <==> Connected(PathGraph(edges), primary, target)
    ensures forall walk :: Joins(PathGraph(edges), walk, primary, target) ==>
              target in previous && depth[target] < |walk|
  {
    var queue := [primary];
    previous, depth := map[primary := None], map[primary := 0];
    while queue != [] && target !in previous
      invariant Tree(edges, primary, previous, depth)
      invariant Layered(queue, depth) && Expanded(PathGraph(edges), queue, depth)
      decreases |Universe(edges, primary)| - |previous|, |queue|
    {
      Bounded(edges, primary, previous, depth);
      Popped(PathGraph(edges), queue, depth);
      var current := queue[0];
      RowOf(edges, adjacency, current);
      previous, queue, depth :=
        Expand(primary, edges, Incident(adjacency, current), current, previous, queue[1..], depth);
      RowDone(edges, adjacency, queue, depth, current);
    }
    Stopped(edges, primary, target, queue, previous, depth);
  }

  // ----- the reported chain -----

  datatype ChainLink = ChainLink(node: Id, via: Option<Edge>)

  function Reversed<T>(s: seq<T>): (r: seq<T>) {
    if s == [] then [] else [s[|s| - 1]] + Reversed(s[..|s| - 1])
  }

  ghost predicate Linked(edges: seq<Edge>, from: ChainLink, to: ChainLink) {
    to.via.Some? && Usable(edges, to.via.value, from.node, to.node)
  }

  /** A run of nodes, each reached from the one before over its own edge. */
  ghost predicate IsRun(edges: seq<Edge>, chain: seq<ChainLink>) {
    && chain != []
    && forall i :: 0 <= i < |chain| - 1 ==> Linked(edges, chain[i], chain[i + 1])
  }

  function Nodes(chain: seq<ChainLink>): (nodes: seq<Id>)
    ensures |nodes| == |chain| && forall i :: 0 <= i < |chain| ==> nodes[i] == chain[i].node
  {
    seq(|chain|, i requires 0 <= i < |chain| => chain[i].node)
  }

  ghost predicate Simple(chain: seq<ChainLink>) {
    forall i, j :: 0 <= i < j < |chain| ==> chain[i].node != chain[j].node
  }

  /** A route: a simple run of usable edges from the primary to the target. */
  ghost predicate IsRoute(edges: seq<Edge>, primary: Id, target: Id, chain: seq<ChainLink>) {
    && IsRun(edges, chain) && Simple(chain)
    && chain[0] == ChainLink(primary, None) && chain[|chain| - 1].node == target
  }

  /** A route with as few hops as any walk between the two nodes. */
  ghost predicate IsShortest(edges: seq<Edge>, primary: Id, target: Id, chain: seq<ChainLink>) {
    && IsRoute(edges, primary, target, chain)
    && forall walk :: Joins(PathGraph(edges), walk, primary, target) ==> |chain| <= |walk|
  }

  /** Depth grows by one along the reversed chain, which is what makes it simple. */
  ghost predicate Descends(chain: seq<ChainLink>, depth: map<Id, nat>, from: nat) {
    forall i :: 0 <= i < |chain| ==> chain[i].node in depth && depth[chain[i].node] == from + i
  }

  lemma ReversedAppend<T>(s: seq<T>, x: T)
    ensures Reversed(s + [x]) == [x] + Reversed(s)
  {
    assert (s + [x])[..|s|] == s;
  }

  lemma ReversedLength<T>(s: seq<T>)
    ensures |Reversed(s)| == |s|
  {
  }

  lemma RunGrows(edges: seq<Edge>, prior: Id, hop: ChainLink, tail: seq<ChainLink>)
    requires hop.via.Some? && Usable(edges, hop.via.value, prior, hop.node)
    requires tail != [] ==> IsRun(edges, [ChainLink(hop.node, None)] + tail)
    ensures IsRun(edges, [ChainLink(prior, None)] + ([hop] + tail))
  {
    var run := [ChainLink(prior, None)] + ([hop] + tail);
    forall i | 0 <= i < |run| - 1 ensures Linked(edges, run[i], run[i + 1]) {
      if i > 0 {
        var shorter := [ChainLink(hop.node, None)] + tail;
        assert Linked(edges, shorter[i - 1], shorter[i]);
      }
    }
  }

  /** The part of a route from a node on: linked, ever deeper, and ending at the target. */
  ghost predicate Onward(edges: seq<Edge>, depth: map<Id, nat>, node: Id, target: Id, tail: seq<ChainLink>) {
    && node in depth && Descends(tail, depth, depth[node] + 1)
    && if tail == [] then node == target
       else IsRun(edges, [ChainLink(node, None)] + tail) && tail[|tail| - 1].node == target
  }

  lemma OnwardGrows(edges: seq<Edge>, depth: map<Id, nat>, prior: Id, hop: ChainLink, target: Id, tail: seq<ChainLink>)
    requires Onward(edges, depth, hop.node, target, tail)
    requires hop.via.Some? && Usable(edges, hop.via.value, prior, hop.node)
    requires prior in depth && depth[hop.node] == depth[prior] + 1
    ensures Onward(edges, depth, prior, target, [hop] + tail)
  {
    RunGrows(edges, prior, hop, tail);
    var more := [hop] + tail;
    assert forall i :: 0 < i < |more| ==> more[i] == tail[i - 1];
  }

  lemma OnwardIsRoute(edges: seq<Edge>, depth: map<Id, nat>, primary: Id, target: Id, tail: seq<ChainLink>)
    requires Onward(edges, depth, primary, target, tail) && depth[primary] == 0 && primary != target
    ensures IsRoute(edges, primary, target, [ChainLink(primary, None)] + tail)
  {
    var chain := [ChainLink(primary, None)] + tail;
    assert Descends(chain, depth, 0) by {
      assert forall i :: 0 < i < |chain| ==> chain[i] == tail[i - 1];
    }
  }

  /** Follow the predecessors back from the target; the loop ends because depth falls at every step. */
  method Chain(primary: Id, target: Id, edges: seq<Edge>, previous: Previous, ghost depth: map<Id, nat>)
    returns (chain: seq<ChainLink>)
    requires Tree(edges, primary, previous, depth) && target in previous && target != primary
    ensures IsRoute(edges, primary, target, chain) && |chain| == depth[target] + 1
  {
    chain := [];
    var cursor := target;
    while cursor != primary
      invariant cursor in previous && |chain| + depth[cursor] == depth[target]
      invariant Onward(edges, depth, cursor, target, Reversed(chain))
      decreases depth[cursor]
    {
      assert Hangs(edges, previous, depth, cursor);
      var (prior, edge) := previous[cursor].value;
      var hop := ChainLink(cursor, Some(edge));
      OnwardGrows(edges, depth, prior, hop, target, Reversed(chain));
      ReversedAppend(chain, hop);
      chain := chain + [hop];
      cursor := prior;
    }
    OnwardIsRoute(edges, depth, primary, target, Reversed(chain));
    ReversedLength(chain);
    ReversedAppend(chain, ChainLink(primary, None));
    chain := Reversed(chain + [ChainLink(primary, None)]);
  }

  lemma RunIsWalk(edges: seq<Edge>, chain: seq<ChainLink>)
    requires IsRun(edges, chain)
    ensures Joins(PathGraph(edges), Nodes(chain), chain[0].node, chain[|chain| - 1].node)
  {
    forall i | 0 <= i < |chain| - 1 ensures Adjacent(PathGraph(edges), Nodes(chain)[i], Nodes(chain)[i + 1]) {
      assert Linked(edges, chain[i], chain[i + 1]);
      UsableJoins(edges, chain[i + 1].via.value, chain[i].node, chain[i + 1].node);
    }
  }

  // ----- the report -----

  datatype Caption = Named(text: string) | BareId(id: Id)

  datatype Hop = Hop(node: Id, caption: Caption, viaInterface: Option<string>, state: HopState, evidence: seq<Id>)

  datatype Path = Path(from: Id, to: Id, state: HopState, hops: seq<Hop>, evidence: seq<Id>)

  /** `STATE_ORDER`: larger is weaker. */
  function Weakness(s: HopState): nat {
    match s
    case Proven => 0
    case Inferred => 1
    case ExpectedHop => 2
    case Ambiguous => 3
    case Unknown => 4
  }

  /** The weakest of the states, proven when there are none. */
  function Weakest(states: seq<HopState>): (state: HopState)
    ensures forall s :: s in states ==> Weakness(s) <= Weakness(state)
    ensures if states == [] then state == Proven else state in states
  {
    if states == [] then Proven
    else if |states| == 1 then states[0]
    else
      var rest := Weakest(states[1..]);
      assert states == [states[0]] + states[1..];
      if Weakness(states[0]) >= Weakness(rest) then states[0] else rest
  }

  /** Two devices with one id: the later wins, as in a dict comprehension. */
  function DevicesById(devices: seq<Device>): map<Id, Device> {
    if devices == [] then map[]
    else DevicesById(devices[..|devices| - 1])[devices[|devices| - 1].id := devices[|devices| - 1]]
  }

  function CaptionOf(byId: map<Id, Device>, node: Id): Caption {
    if node in byId then Named(byId[node].caption) else BareId(node)
  }

  /** The interface shown is the one at this hop's end of the edge. */
  function HopOf(byId: map<Id, Device>, step: ChainLink): Hop {
    match step.via
    case None => Hop(step.node, CaptionOf(byId, step.node), None, Proven, [])
    case Some(e) =>
      Hop(step.node, CaptionOf(byId, step.node),
          if e.to == step.node then e.toInterface else e.fromInterface, e.state, e.evidence)
  }

  function EdgesOf(chain: seq<ChainLink>): (edges: seq<Edge>)
    ensures forall e :: e in edges <==> exists i :: 0 <= i < |chain| && chain[i].via == Some(e)
  {
    if chain == [] then []
    else (if chain[0].via.Some? then [chain[0].via.value] else []) + EdgesOf(chain[1..])
  }

  function Report(byId: map<Id, Device>, primary: Id, target: Id, chain: seq<ChainLink>): Path {
    var edges := EdgesOf(chain);
    Path(primary, target,
         Weakest(seq(|edges|, i requires 0 <= i < |edges| => edges[i].state)),
         seq(|chain|, i requires 0 <= i < |chain| => HopOf(byId, chain[i])),
         SortedIds(set e, x | e in edges && x in e.evidence :: x))
  }

  /** The path's state is the weakest state shown on any of its hops, and some edge hop shows it. */
  lemma ReportIsAsWeakAsItsHops(edges: seq<Edge>, devices: seq<Device>, primary: Id, target: Id, chain: seq<ChainLink>)
    requires IsRoute(edges, primary, target, chain) && primary != target
    ensures var path := Report(DevicesById(devices), primary, target, chain);
            && (forall i :: 0 <= i < |path.hops| ==> Weakness(path.hops[i].state) <= Weakness(path.state))
            && (exists i :: 0 < i < |path.hops| && path.hops[i].state == path.state)
  {
    var path := Report(DevicesById(devices), primary, target, chain);
    var used := EdgesOf(chain);
    var states := seq(|used|, i requires 0 <= i < |used| => used[i].state);
    forall i | 0 <= i < |chain| && chain[i].via.Some? ensures chain[i].via.value.state in states {
      assert chain[i].via.value in used;
      var j :| 0 <= j < |used| && used[j] == chain[i].via.value;
      assert states[j] == chain[i].via.value.state;
    }
    assert Linked(edges, chain[0], chain[1]);
    var j :| 0 <= j < |states| && states[j] == path.state;
    assert used[j] in used;
    var i :| 0 <= i < |chain| && chain[i].via == Some(used[j]);
    assert path.hops[i].state == path.state;
  }

  function NoPath(primary: Device, target: Device): Path {
    Path(primary.id, target.id, Unknown,
         [Hop(primary.id, Named(primary.caption), None, Proven, []),
          Hop(target.id, Named(target.caption), None, Unknown, [])], [])
  }

  /** What one entry of the report says: a shortest route, or the two-hop form when there is no walk. */
  ghost predicate Reports(devices: seq<Device>, edges: seq<Edge>, primary: Device, target: Device, path: Path) {
    if Connected(PathGraph(edges), primary.id, target.id)
    then exists chain ::
           && IsShortest(edges, primary.id, target.id, chain)
           && path == Report(DevicesById(devices), primary.id, target.id, chain)
    else path == NoPath(primary, target)
  }

  /** A hop shows the edge that led to it, by the interface at its own end. */
  lemma HopsShowTheirEnd(edges: seq<Edge>, devices: seq<Device>, primary: Id, target: Id, chain: seq<ChainLink>, i: nat)
    requires IsRoute(edges, primary, target, chain) && 0 < i < |chain|
    ensures var hop, before := Report(DevicesById(devices), primary, target, chain).hops[i], chain[i - 1].node;
            exists e ::
              e in edges && Touches(e, before, hop.node) && hop.state == e.state && hop.evidence == e.evidence &&
              ((e.to == hop.node && hop.viaInterface == e.toInterface) ||
               (e.to == before && hop.viaInterface == e.fromInterface))
  {
    assert Linked(edges, chain[i - 1], chain[i]);
  }

  /** How the state of a path reads: proven only if every hop is, unknown only if some hop is, and resting on
      observation alone if no hop is expected, ambiguous or unknown. */
  ghost predicate ReadsAsItsHops(path: Path) {
    && (path.state == Proven <==> forall h :: h in path.hops ==> h.state == Proven)
    && (path.state == Unknown <==> exists h :: h in path.hops && h.state == Unknown)
    && (path.state == Proven || path.state == Inferred <==>
        forall h :: h in path.hops ==> h.state == Proven || h.state == Inferred)
    && (path.state == Ambiguous || path.state == Unknown <==>
        exists h :: h in path.hops && (h.state == Ambiguous || h.state == Unknown))
  }

  lemma HopsDecide(path: Path, i: nat)
    requires i < |path.hops| && path.hops[i].state == path.state
    requires forall k :: 0 <= k < |path.hops| ==> Weakness(path.hops[k].state) <= Weakness(path.state)
    ensures ReadsAsItsHops(path)
  {
    assert path.hops[i] in path.hops;
    forall h | h in path.hops ensures Weakness(h.state) <= Weakness(path.state) {
      var k :| 0 <= k < |path.hops| && path.hops[k] == h;
    }
  }

  /** Without a walk the state is unknown; with one, it is that of the weakest hop. */
  lemma PathStatesMean(devices: seq<Device>, edges: seq<Edge>, primary: Device, target: Device, path: Path)
    requires Reports(devices, edges, primary, target, path) && primary.id != target.id
    ensures !Connected(PathGraph(edges), primary.id, target.id) ==>
              path.state == Unknown && path.evidence == [] && |path.hops| == 2 && path.hops[1].node == target.id
    ensures Connected(PathGraph(edges), primary.id, target.id) ==> ReadsAsItsHops(path)
  {
    if Connected(PathGraph(edges), primary.id, target.id) {
      var chain :| IsShortest(edges, primary.id, target.id, chain) &&
        path == Report(DevicesById(devices), primary.id, target.id, chain);
      ReportIsAsWeakAsItsHops(edges, devices, primary.id, target.id, chain);
      var i :| 0 < i < |path.hops| && path.hops[i].state == path.state;
      HopsDecide(path, i);
    }
  }

  function FirstPrimary(devices: seq<Device>): (first: Option<Device>)
    ensures first.None? <==> forall d :: d in devices ==> !d.primary
    ensures first.Some? ==> first.value in devices && first.value.primary
    ensures forall k :: 0 <= k < |devices| && devices[k].primary && (forall j :: 0 <= j < k ==> !devices[j].primary) ==>
              first == Some(devices[k])
  {
    if devices == [] then None
    else if devices[0].primary then Some(devices[0])
    else FirstPrimary(devices[1..])
  }

  /** The primary device, or the first when none is marked. */
  function Primary(devices: seq<Device>): Device
    requires devices != []
  {
    if FirstPrimary(devices).Some? then FirstPrimary(devices).value else devices[0]
  }

  /** The devices a path is reported to, in order. */
  function Targets(devices: seq<Device>, primary: Id): (targets: seq<Device>)
    ensures forall d :: d in targets <==> d in devices && d.id != primary
  {
    if devices == [] then []
    else (if devices[0].id != primary then [devices[0]] else []) + Targets(devices[1..], primary)
  }

  lemma TargetsAppend(devices: seq<Device>, d: Device, primary: Id)
    ensures Targets(devices + [d], primary) == Targets(devices, primary) + (if d.id != primary then [d] else [])
  {
    if devices != [] {
      assert (devices + [d])[1..] == devices[1..] + [d];
      TargetsAppend(devices[1..], d, primary);
    }
  }

  ghost predicate ReportsAll(devices: seq<Device>, edges: seq<Edge>, primary: Device, targets: seq<Device>,
                             paths: seq<Path>) {
    && |paths| == |targets|
    && forall i :: 0 <= i < |paths| ==> Reports(devices, edges, primary, targets[i], paths[i])
  }

  lemma TargetsNext(devices: seq<Device>, i: nat, primary: Id)
    requires i < |devices|
    ensures Targets(devices[..i + 1], primary) ==
            Targets(devices[..i], primary) + (if devices[i].id != primary then [devices[i]] else [])
    ensures i + 1 == |devices| ==> devices[..i + 1] == devices
  {
    TargetsAppend(devices[..i], devices[i], primary);
    assert devices[..i + 1] == devices[..i] + [devices[i]];
  }

  method PathTo(devices: seq<Device>, edges: seq<Edge>, byId: map<Id, Device>, adjacency: Incidence,
                primary: Device, target: Device)
    returns (path: Path)
    requires Indexes(adjacency, edges) && byId == DevicesById(devices) && primary.id != target.id
    ensures Reports(devices, edges, primary, target, path)
  {
    var previous, depth := Search(primary.id, target.id, edges, adjacency);
    if target.id !in previous {
      path := NoPath(primary, target);
    } else {
      var chain := Chain(primary.id, target.id, edges, previous, depth);
      assert IsShortest(edges, primary.id, target.id, chain);
      path := Report(byId, primary.id, target.id, chain);
    }
  }

  lemma ReportsNext(devices: seq<Device>, edges: seq<Edge>, primary: Device, targets: seq<Device>, paths: seq<Path>,
                    target: Device, path: Path)
    requires ReportsAll(devices, edges, primary, targets, paths) && Reports(devices, edges, primary, target, path)
    ensures ReportsAll(devices, edges, primary, targets + [target], paths + [path])
  {
  }

  method PathsFrom(primary: Device, devices: seq<Device>, edges: seq<Edge>) returns (paths: seq<Path>)
    ensures ReportsAll(devices, edges, primary, Targets(devices, primary.id), paths)
  {
    var byId := DevicesById(devices);
    var adjacency := IncidenceLists(edges);
    paths := [];
    ghost var targets := [];
    var i := 0;
    while i < |devices|
      invariant i <= |devices| && targets == Targets(devices[..i], primary.id)
      invariant i == |devices| ==> devices[..i] == devices
      invariant ReportsAll(devices, edges, primary, targets, paths)
    {
      TargetsNext(devices, i, primary.id);
      if devices[i].id != primary.id {
        var path := PathTo(devices, edges, byId, adjacency, primary, devices[i]);
        ReportsNext(devices, edges, primary, targets, paths, devices[i], path);
        paths, targets := paths + [path], targets + [devices[i]];
      }
      i := i + 1;
    }
  }

  /** `_paths`: one report for every device other than the primary. */
  method Paths(devices: seq<Device>, edges: seq<Edge>) returns (paths: seq<Path>)
    ensures devices == [] ==> paths == []
    ensures devices != [] ==>
              ReportsAll(devices, edges, Primary(devices), Targets(devices, Primary(devices).id), paths)
  {
    if devices == [] {
      return [];
    }
    paths := PathsFrom(Primary(devices), devices, edges);
  }
}
