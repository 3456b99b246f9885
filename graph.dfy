/** The transit graph `TflGraph` of the three revisions: stations as nodes, one
    edge per timetabled hop and one per walking neighbour, the index from station
    id to node, and the searches answering "how long from here to everywhere". */
module Graph {
  import opened Wrappers
  import opened Panics
  import opened Times
  import opened DirectConnections
  import opened Connection
  import opened Stations
  import opened Search

  /** A neighbour reported by the nearest-neighbour index: a node and its distance in metres. */
  datatype Neighbour = Neighbour(node: nat, dist: real)

  /** Why adding the edge of one connection record panics, if it does: a stop
      missing from the stop map (`unwrap` on `None`), or departure times that are
      not strictly increasing (`usize` underflow in `from_direct_connection`). */
  function EdgeFailure(c: DirectConnection, stops: map<string, StopPoint>): (f: Option<Panic>)
    ensures f.None? <==> c.origin in stops && c.destination in stops && StrictlyIncreasing(c.departureTimes)
  {
    if c.origin !in stops || c.destination !in stops then Some(UnwrapOnNone)
    else if !StrictlyIncreasing(c.departureTimes) then Some(SubtractWithOverflow)
    else None
  }

  /** Record `k` is the first whose edge panics. */
  predicate FailsFirstAt(conns: seq<DirectConnection>, stops: map<string, StopPoint>, k: nat)
  {
    k < |conns| && EdgeFailure(conns[k], stops).Some?
    && forall i :: 0 <= i < k ==> EdgeFailure(conns[i], stops).None?
  }

  /** The ids of the stops a list of connection records mentions. */
  function StopIds(conns: seq<DirectConnection>): (ids: set<string>)
    ensures forall id :: id in ids <==> exists i :: 0 <= i < |conns| && (conns[i].origin == id || conns[i].destination == id)
    decreases |conns|
  {
    if conns == [] then {}
    else
      var ids := StopIds(conns[..|conns| - 1]) + {conns[|conns| - 1].origin, conns[|conns| - 1].destination};
      assert forall i :: 0 <= i < |conns| - 1 ==> conns[..|conns| - 1][i] == conns[i];
      ids
  }

  /** The walking edges out of node `i`: one per reported neighbour other than `i`
      itself, in the order reported. */
  function NeighbourEdges(i: nat, ns: seq<Neighbour>): (es: seq<Edge>)
    ensures forall e :: e in es ==> e.source == i && e.source != e.target
    ensures forall e :: e in es <==> exists k :: 0 <= k < |ns| && ns[k].node != i && e == Edge(i, ns[k].node, FromDist(ns[k].dist))
    decreases |ns|
  {
    if ns == [] then []
    else
      var init := ns[..|ns| - 1];
      var n := ns[|ns| - 1];
      assert forall k :: 0 <= k < |init| ==> init[k] == ns[k];
      NeighbourEdges(i, init) + (if n.node != i then [Edge(i, n.node, FromDist(n.dist))] else [])
  }

  /** The walking edges of every node, node by node in index order. */
  function WalkingEdges(near: seq<seq<Neighbour>>): (es: seq<Edge>)
    ensures forall e :: e in es ==> e.source < |near| && e.source != e.target
    ensures forall e :: e in es <==>
              exists i, k :: 0 <= i < |near| && 0 <= k < |near[i]| && near[i][k].node != i
                             && e == Edge(i, near[i][k].node, FromDist(near[i][k].dist))
    decreases |near|
  {
    if near == [] then []
    else
      var init := near[..|near| - 1];
      assert forall i :: 0 <= i < |init| ==> init[i] == near[i];
      WalkingEdges(init) + NeighbourEdges(|near| - 1, near[|near| - 1])
  }

  /** `true` when every neighbour the index reports is a node of the graph. */
  predicate NeighboursWithin(near: seq<seq<Neighbour>>, n: nat)
  {
    forall i, k :: 0 <= i < |near| && 0 <= k < |near[i]| ==> near[i][k].node < n
  }

  /** What running an operation comes to: a value, a panic, or no end at all. */
  datatype Outcome<T> = Done(value: T) | Aborted(error: Panic) | Diverges

  /** One entry of the top-50 answer: minutes from the start, the station, and the
      stations along the path from it back to the start. */
  datatype StationPath = StationPath(score: nat, val: Station, path: seq<Station>)

  /** One entry of the full answer: minutes from the start, the destination, and
      the station ids along the path from it back to the start. */
  datatype IdPath = IdPath(minutes: nat, destination: Station, path: seq<string>)

  /** The contents of a graph: node weights by index, edges in insertion order,
      and the index from station id to node. */
  datatype Built = Built(nodes: seq<Station>, edges: seq<Edge>, index: map<string, nat>)

  /** Every node is filed under its station id, and every edge joins two nodes. */
  ghost predicate WellIndexed(b: Built)
  {
    (forall id :: id in b.index ==> b.index[id] < |b.nodes| && b.nodes[b.index[id]].id == id)
    && (forall i :: 0 <= i < |b.nodes| ==> b.nodes[i].id in b.index && b.index[b.nodes[i].id] == i)
    && EdgesWithin(b.edges, |b.nodes|)
  }

  /** The node of `sp` after `get_or_insert_node_idx`, and the graph after it. */
  function InsertNode(b: Built, sp: StopPoint): (Built, nat)
  {
    if sp.id in b.index then (b, b.index[sp.id])
    else (b.(nodes := b.nodes + [StationOf(sp)], index := b.index[sp.id := |b.nodes|]), |b.nodes|)
  }

  /** The graph after the edge loop's body for one record. */
  function AddEdge(b: Built, con: DirectConnection, stops: map<string, StopPoint>): Result<Built, Panic>
  {
    if con.origin !in stops || con.destination !in stops then Err(UnwrapOnNone)
    else
      var (b1, fromIdx) := InsertNode(b, stops[con.origin]);
      var (b2, toIdx) := InsertNode(b1, stops[con.destination]);
      if !StrictlyIncreasing(con.departureTimes) then Err(SubtractWithOverflow)
      else Ok(b2.(edges := b2.edges + [Edge(fromIdx, toIdx, ConnectionOf(con))]))
  }

  /** The graph after the edge loop over `conns`, stopping at the first panic. */
  function AddEdges(b: Built, conns: seq<DirectConnection>, stops: map<string, StopPoint>): Result<Built, Panic>
    decreases |conns|
  {
    if conns == [] then Ok(b)
    else
      match AddEdges(b, conns[..|conns| - 1], stops)
      case Err(e) => Err(e)
      case Ok(b1) => AddEdge(b1, conns[|conns| - 1], stops)
  }

  class TflGraph {
    var nodes: seq<Station>
    var edges: seq<Edge>
    var stationIdToNode: map<string, nat>

    ghost function Contents(): Built
      reads this
    {
      Built(nodes, edges, stationIdToNode)
    }

    ghost predicate Valid()
      reads this
    {
      WellIndexed(Contents())
    }

    /** `TflGraph::default()`: no nodes, no edges, an empty index. */
    constructor ()
      ensures Valid() && nodes == [] && edges == [] && stationIdToNode == map[]
    {
      nodes := [];
      edges := [];
      stationIdToNode := map[];
    }

    /** `get_or_insert_node_idx`: a known station id answers its node and changes
        nothing; an unknown one gets exactly one new node, filed under its id. */
    method GetOrInsertNodeIdx(sp: StopPoint) returns (idx: nat)
      requires Valid()
      modifies this
      ensures Valid() && edges == old(edges)
      ensures (Contents(), idx) == InsertNode(old(Contents()), sp)
      ensures idx < |nodes| && sp.id in stationIdToNode && stationIdToNode[sp.id] == idx
      ensures sp.id in old(stationIdToNode) ==>
                nodes == old(nodes) && stationIdToNode == old(stationIdToNode)
      ensures sp.id !in old(stationIdToNode) ==>
                idx == old(|nodes|) && nodes == old(nodes) + [StationOf(sp)]
                && stationIdToNode == old(stationIdToNode)[sp.id := idx]
    {
      if sp.id in stationIdToNode {
        return stationIdToNode[sp.id];
      }
      idx := |nodes|;
      nodes := nodes + [StationOf(sp)];
      stationIdToNode := stationIdToNode[sp.id := idx];
    }

    /** The body of the edge loop shared by the three revisions: resolve both
        stops (a missing one panics), get or insert their nodes, convert the
        record and add one edge from the origin's node to the destination's. */
    method AddStationEdge(con: DirectConnection, stops: map<string, StopPoint>) returns (r: Result<(), Panic>)
      requires Valid()
      modifies this
      ensures r.Err? ==> AddEdge(old(Contents()), con, stops) == Err(r.error)
      ensures r.Ok? ==> AddEdge(old(Contents()), con, stops) == Ok(Contents()) && Valid()
    {
      if con.origin !in stops || con.destination !in stops {
        return Err(UnwrapOnNone);
      }
      var fromIdx := GetOrInsertNodeIdx(stops[con.origin]);
      var toIdx := GetOrInsertNodeIdx(stops[con.destination]);
      var connection := FromDirectConnection(con);
      if connection.Err? {
        return Err(connection.error);
      }
      edges := edges + [Edge(fromIdx, toIdx, connection.value)];
      return Ok(());
    }

    /** The edge loop over all records, in order. */
    method AddStationEdges(conns: seq<DirectConnection>, stops: map<string, StopPoint>) returns (r: Result<(), Panic>)
      requires Valid()
      modifies this
      ensures r.Err? ==> AddEdges(old(Contents()), conns, stops) == Err(r.error)
      ensures r.Ok? ==> AddEdges(old(Contents()), conns, stops) == Ok(Contents()) && Valid()
    {
      var i := 0;
      while i < |conns|
        invariant 0 <= i <= |conns| && Valid()
        invariant AddEdges(old(Contents()), conns[..i], stops) == Ok(Contents())
      {
        var step := AddStationEdge(conns[i], stops);
        assert conns[..i + 1][..i] == conns[..i];
        if step.Err? {
          AddEdgesStaysFailed(old(Contents()), conns, stops, i + 1);
          return Err(step.error);
        }
        i := i + 1;
      }
      assert conns[..i] == conns;
      return Ok(());
    }

    /** `add_stations` of the first revision: gathers the stop ids of all records,
        fetches each stop (a missing one panics before any edge is added), then
        runs the edge loop over the fetched stops. */
    method AddStations(conns: seq<DirectConnection>, stops: map<string, StopPoint>) returns (r: Result<(), Panic>)
      requires Valid() && KeyedById(stops)
      modifies this
      ensures !(StopIds(conns) <= stops.Keys) ==> r == Err(UnwrapOnNone) && Contents() == old(Contents())
      ensures StopIds(conns) <= stops.Keys ==>
                (r.Err? ==> AddEdges(old(Contents()), conns, stops) == Err(r.error) && r.error == SubtractWithOverflow)
                && (r.Ok? ==> AddEdges(old(Contents()), conns, stops) == Ok(Contents()) && Valid())
    {
      var stopIds := CollectStopIds(conns);
      if !(stopIds <= stops.Keys) {
        return Err(UnwrapOnNone);
      }
      var fetched := map id | id in stopIds :: stops[id];
      AddEdgesReadsOnlyItsStops(old(Contents()), conns, stops, fetched);
      r := AddStationEdges(conns, fetched);
      if r.Err? {
        AddEdgesOutcome(old(Contents()), conns, stops);
        var k: nat :| FailsFirstAt(conns, stops, k) && r.error == EdgeFailure(conns[k], stops).value;
        assert conns[k].origin in StopIds(conns) && conns[k].destination in StopIds(conns);
      }
    }

    /** `add_stations` of the back end: fetches the stops whose id some record
        mentions in one query, keys them by id, then runs the edge loop; a stop
        the query did not find panics at the first record that needs it. */
    method AddStationsFetched(conns: seq<DirectConnection>, stops: map<string, StopPoint>) returns (r: Result<(), Panic>)
      requires Valid() && KeyedById(stops)
      modifies this
      ensures r.Err? ==> AddEdges(old(Contents()), conns, stops) == Err(r.error)
      ensures r.Ok? ==> AddEdges(old(Contents()), conns, stops) == Ok(Contents()) && Valid()
    {
      var stopIds := CollectStopIds(conns);
      var found := map id | id in stops && id in stopIds :: stops[id];
      AddEdgesReadsOnlyItsStops(old(Contents()), conns, stops, found);
      r := AddStationEdges(conns, found);
    }

    /** `add_walking_edges`: for every node in index order, the neighbours the
        index reports within 1000 m other than the node itself, each turned into
        a walking edge; all are collected first and then appended. The neighbour
        query is the parameter `near`: `near[i]` is what it reports for node `i`. */
    method AddWalkingEdges(near: seq<seq<Neighbour>>)
      requires Valid() && |near| == |nodes| && NeighboursWithin(near, |nodes|)
      modifies this
      ensures Valid() && nodes == old(nodes) && stationIdToNode == old(stationIdToNode)
      ensures edges == old(edges) + WalkingEdges(near)
    {
      var walking := WalkingConnections(near);
      WalkingWithin(near, |nodes|);
      var j := 0;
      while j < |walking|
        invariant 0 <= j <= |walking| && edges == old(edges) + walking[..j]
        invariant nodes == old(nodes) && stationIdToNode == old(stationIdToNode)
      {
        assert walking[..j + 1] == walking[..j] + [walking[j]];
        edges := edges + [walking[j]];
        j := j + 1;
      }
      assert walking[..j] == walking;
      EdgesWithinAppend(old(edges), walking, |nodes|);
    }

    /** The `flat_map` over all nodes collecting the walking edges. */
    method WalkingConnections(near: seq<seq<Neighbour>>) returns (walking: seq<Edge>)
      requires Valid() && |near| == |nodes| && NeighboursWithin(near, |nodes|)
      ensures walking == WalkingEdges(near)
    {
      walking := [];
      var i := 0;
      while i < |nodes|
        invariant 0 <= i <= |nodes| && walking == WalkingEdges(near[..i])
      {
        var mine := CloseConnections(i, near[i]);
        assert near[..i + 1][..i] == near[..i];
        walking := walking + mine;
        i := i + 1;
      }
      assert near[..i] == near;
    }

    /** The walking edges of node `i`: each reported neighbour's node is looked up
        by its station id, and the node itself is filtered out. */
    method CloseConnections(i: nat, ns: seq<Neighbour>) returns (mine: seq<Edge>)
      requires Valid() && forall k :: 0 <= k < |ns| ==> ns[k].node < |nodes|
      ensures mine == NeighbourEdges(i, ns)
    {
      mine := [];
      var k := 0;
      while k < |ns|
        invariant 0 <= k <= |ns| && mine == NeighbourEdges(i, ns[..k])
      {
        var close := ns[k];
        var closeIdx := stationIdToNode[nodes[close.node].id];
        assert ns[..k + 1][..k] == ns[..k];
        if i != closeIdx {
          mine := mine + [Edge(i, closeIdx, FromDist(close.dist))];
        }
        k := k + 1;
      }
      assert ns[..k] == ns;
    }

    /** The search of `time_dependent_dijkstra` from station `start` at minute
        `startTime` of the day: an unknown station panics on `unwrap`. */
    method RunSearch(start: string, startTime: MinuteOfDay) returns (r: Result<State, Panic>)
      requires Valid()
      ensures start !in stationIdToNode ==> r == Err(UnwrapOnNone)
      ensures start in stationIdToNode ==>
                (r.Err? ==> r.error == IndexOutOfBounds || r.error == AddWithOverflow)
                && (r.Ok? ==> Searched(SearchFrom(Contents(), start, startTime), r.value))
    {
      if start !in stationIdToNode {
        return Err(UnwrapOnNone);
      }
      var p := Problem(edges, |nodes|, stationIdToNode[start], startTime);
      r := Explore(p);
    }

    /** `time_dependent_dijkstra` of the first two revisions: at most 50 entries,
        in the scores map's unspecified order, each with minutes from the start,
        the station and the stations along its parent chain. */
    method TimeDependentDijkstraTop50(start: string, startTime: MinuteOfDay)
      returns (r: Outcome<seq<StationPath>>, ghost s: State, ghost found: seq<Scored>)
      requires Valid()
      ensures start !in stationIdToNode ==> r == Aborted(UnwrapOnNone)
      ensures start in stationIdToNode ==>
                var p := SearchFrom(Contents(), start, startTime);
                (r.Aborted? ==> r.error == IndexOutOfBounds || r.error == AddWithOverflow)
                && (!r.Aborted? ==> Searched(p, s) && (r.Diverges? <==> SelfLoop(edges, p.start)))
                && (r.Done? ==> AnswersAll(p, s, found, Some(TopLimit))
                                && AllWithin(found, |nodes|) && r.value == StationPaths(nodes, found))
    {
      s, found := State({}, map[], map[], [], map[], map[], map[], 0, 0), [];
      var searched := RunSearch(start, startTime);
      if searched.Err? {
        return Aborted(searched.error), s, found;
      }
      var st := searched.value;
      s := st;
      var p := Problem(edges, |nodes|, stationIdToNode[start], startTime);
      var collected := CollectPaths(p, st, Some(TopLimit));
      if collected.Diverges? {
        return Diverges, s, found;
      }
      var paths := collected.value;
      found := paths;
      AnswersWithin(p, st, paths);
      r := Done(StationPaths(nodes, paths));
    }

    /** `time_dependent_dijkstra` of the back end: one entry per scored node, in
        the scores map's unspecified order, each with minutes from the start, the
        station and the station ids along its parent chain. */
    method TimeDependentDijkstra(start: string, startTime: MinuteOfDay)
      returns (r: Outcome<seq<IdPath>>, ghost s: State, ghost found: seq<Scored>)
      requires Valid()
      ensures start !in stationIdToNode ==> r == Aborted(UnwrapOnNone)
      ensures start in stationIdToNode ==>
                var p := SearchFrom(Contents(), start, startTime);
                (r.Aborted? ==> r.error == IndexOutOfBounds || r.error == AddWithOverflow)
                && (!r.Aborted? ==> Searched(p, s) && (r.Diverges? <==> SelfLoop(edges, p.start)))
                && (r.Done? ==> AnswersAll(p, s, found, None)
                                && AllWithin(found, |nodes|) && r.value == IdPaths(nodes, found))
    {
      s, found := State({}, map[], map[], [], map[], map[], map[], 0, 0), [];
      var searched := RunSearch(start, startTime);
      if searched.Err? {
        return Aborted(searched.error), s, found;
      }
      var st := searched.value;
      s := st;
      var p := Problem(edges, |nodes|, stationIdToNode[start], startTime);
      var collected := CollectPaths(p, st, None);
      if collected.Diverges? {
        return Diverges, s, found;
      }
      var paths := collected.value;
      found := paths;
      AnswersWithin(p, st, paths);
      r := Done(IdPaths(nodes, paths));
    }
  }

  lemma EdgesWithinAppend(a: seq<Edge>, b: seq<Edge>, n: nat)
    requires EdgesWithin(a, n) && EdgesWithin(b, n)
    ensures EdgesWithin(a + b, n)
  {
    forall e | e in a + b
      ensures e.source < n && e.target < n
    {
      assert e in a || e in b;
    }
  }

  /** The stop ids of the records, gathered one record at a time into a set. */
  method CollectStopIds(conns: seq<DirectConnection>) returns (ids: set<string>)
    ensures ids == StopIds(conns)
  {
    ids := {};
    var i := 0;
    while i < |conns|
      invariant 0 <= i <= |conns| && ids == StopIds(conns[..i])
    {
      assert conns[..i + 1][..i] == conns[..i];
      ids := ids + {conns[i].origin, conns[i].destination};
      i := i + 1;
    }
    assert conns[..i] == conns;
  }

  /** Once the loop has panicked, the later records do not matter. */
  lemma {:induction false} AddEdgesStaysFailed(b: Built, conns: seq<DirectConnection>, stops: map<string, StopPoint>, i: nat)
    requires i <= |conns| && AddEdges(b, conns[..i], stops).Err?
    ensures AddEdges(b, conns, stops) == AddEdges(b, conns[..i], stops)
    decreases |conns| - i
  {
    if i < |conns| {
      assert conns[..i + 1][..i] == conns[..i];
      AddEdgesStaysFailed(b, conns, stops, i + 1);
    } else {
      assert conns[..i] == conns;
    }
  }

  /** Edge number `e` is the one record `c` stands for: from its origin's node to
      its destination's node, weighted by its converted departure list. */
  ghost predicate EdgeOf(edges: seq<Edge>, index: map<string, nat>, c: DirectConnection, e: nat)
  {
    e < |edges| && c.origin in index && c.destination in index
    && edges[e] == Edge(index[c.origin], index[c.destination], ConnectionOf(c))
  }

  /** `b1` only adds to `b`: nodes and edges are appended, ids keep their nodes. */
  ghost predicate Grows(b: Built, b1: Built)
  {
    b.nodes <= b1.nodes && b.edges <= b1.edges
    && forall id :: id in b.index ==> id in b1.index && b1.index[id] == b.index[id]
  }

  /** Every node `b1` has beyond those of `b` is the station of the stop filed under its id. */
  ghost predicate NewNodesFrom(b: Built, b1: Built, stops: map<string, StopPoint>)
  {
    forall i :: |b.nodes| <= i < |b1.nodes| ==>
      b1.nodes[i].id in stops && b1.nodes[i] == StationOf(stops[b1.nodes[i].id])
  }

  /** One record: it panics exactly when `EdgeFailure` says, with that panic. */
  lemma AddEdgeOutcome(b: Built, c: DirectConnection, stops: map<string, StopPoint>)
    ensures AddEdge(b, c, stops).Ok? <==> EdgeFailure(c, stops).None?
    ensures AddEdge(b, c, stops).Err? ==> AddEdge(b, c, stops).error == EdgeFailure(c, stops).value
  {
  }

  /** The edge loop panics exactly when some record fails, and then with the
      failure of the first such record. */
  lemma {:induction false} AddEdgesOutcome(b: Built, conns: seq<DirectConnection>, stops: map<string, StopPoint>)
    ensures AddEdges(b, conns, stops).Ok? <==> forall i :: 0 <= i < |conns| ==> EdgeFailure(conns[i], stops).None?
    ensures AddEdges(b, conns, stops).Err? ==>
              exists k: nat :: FailsFirstAt(conns, stops, k) && AddEdges(b, conns, stops).error == EdgeFailure(conns[k], stops).value
    decreases |conns|
  {
    if conns != [] {
      var init := conns[..|conns| - 1];
      var n := |conns| - 1;
      AddEdgesOutcome(b, init, stops);
      assert forall i :: 0 <= i < n ==> init[i] == conns[i];
      match AddEdges(b, init, stops)
      case Err(e) =>
        var k: nat :| FailsFirstAt(init, stops, k) && e == EdgeFailure(init[k], stops).value;
        assert FailsFirstAt(conns, stops, k);
      case Ok(b1) =>
        AddEdgeOutcome(b1, conns[n], stops);
        if EdgeFailure(conns[n], stops).Some? {
          assert FailsFirstAt(conns, stops, n);
        }
    }
  }

  /** One record on a well-indexed graph: its two stops are filed (new ones as
      new nodes) and the graph stays well indexed. */
  lemma AddEdgeIndexed(b: Built, c: DirectConnection, stops: map<string, StopPoint>)
    requires WellIndexed(b) && KeyedById(stops) && AddEdge(b, c, stops).Ok?
    ensures var b1 := AddEdge(b, c, stops).value;
            WellIndexed(b1) && Grows(b, b1) && NewNodesFrom(b, b1, stops)
            && b1.index.Keys == b.index.Keys + {c.origin, c.destination}
  {
    var (bo, fromIdx) := InsertNode(b, stops[c.origin]);
    InsertNodeShape(b, stops[c.origin], stops);
    var (bd, toIdx) := InsertNode(bo, stops[c.destination]);
    InsertNodeShape(bo, stops[c.destination], stops);
    GrowsTrans(b, bo, bd, stops);
    var b1 := bd.(edges := bd.edges + [Edge(fromIdx, toIdx, ConnectionOf(c))]);
    assert AddEdge(b, c, stops).value == b1;
    AppendEdge(bd, Edge(fromIdx, toIdx, ConnectionOf(c)));
    GrowsTrans(b, bd, b1, stops);
  }

  /** Appending an edge between two nodes keeps a graph well indexed. */
  lemma AppendEdge(b: Built, e: Edge)
    requires WellIndexed(b) && e.source < |b.nodes| && e.target < |b.nodes|
    ensures WellIndexed(b.(edges := b.edges + [e])) && Grows(b, b.(edges := b.edges + [e]))
  {
  }

  /** Growth composes, and so does taking new nodes from the stop map. */
  lemma GrowsTrans(b0: Built, b1: Built, b2: Built, stops: map<string, StopPoint>)
    requires Grows(b0, b1) && Grows(b1, b2)
    requires NewNodesFrom(b0, b1, stops) && NewNodesFrom(b1, b2, stops)
    ensures Grows(b0, b2) && NewNodesFrom(b0, b2, stops)
  {
    forall i | |b0.nodes| <= i < |b2.nodes|
      ensures b2.nodes[i].id in stops && b2.nodes[i] == StationOf(stops[b2.nodes[i].id])
    {
      if i < |b1.nodes| {
        assert b2.nodes[i] == b1.nodes[i];
      }
    }
  }

  /** `get_or_insert_node_idx` on values: the graph stays well indexed and only
      grows, by the stop's own station when its id was new. */
  lemma InsertNodeShape(b: Built, sp: StopPoint, stops: map<string, StopPoint>)
    requires WellIndexed(b) && sp.id in stops && stops[sp.id] == sp
    ensures var (b1, idx) := InsertNode(b, sp);
            WellIndexed(b1) && Grows(b, b1) && NewNodesFrom(b, b1, stops) && b1.edges == b.edges
            && b1.index.Keys == b.index.Keys + {sp.id} && idx == b1.index[sp.id]
  {
  }

  /** The edge loop on a well-indexed graph keeps it well indexed; it only grows;
      the ids filed are the old ones plus every stop the records mention; each new
      node is the station of its stop. */
  lemma {:induction false} AddEdgesIndexed(b: Built, conns: seq<DirectConnection>, stops: map<string, StopPoint>)
    requires WellIndexed(b) && KeyedById(stops) && AddEdges(b, conns, stops).Ok?
    ensures var b1 := AddEdges(b, conns, stops).value;
            WellIndexed(b1) && Grows(b, b1) && NewNodesFrom(b, b1, stops)
            && b1.index.Keys == b.index.Keys + StopIds(conns)
    decreases |conns|
  {
    if conns != [] {
      var n := |conns| - 1;
      AddEdgesIndexed(b, conns[..n], stops);
      var bp := AddEdges(b, conns[..n], stops).value;
      AddEdgeIndexed(bp, conns[n], stops);
      GrowsTrans(b, bp, AddEdges(b, conns, stops).value, stops);
    }
  }

  /** One record, on any graph: its edge is appended and joins the nodes its
      stops are filed under; what was filed stays filed. */
  lemma AddEdgeAppends(b: Built, c: DirectConnection, stops: map<string, StopPoint>)
    requires KeyedById(stops) && AddEdge(b, c, stops).Ok?
    ensures var b1 := AddEdge(b, c, stops).value;
            Grows(b, b1) && |b1.edges| == |b.edges| + 1 && EdgeOf(b1.edges, b1.index, c, |b.edges|)
  {
    assert stops[c.origin].id == c.origin && stops[c.destination].id == c.destination;
  }

  /** The edge loop adds exactly one edge per record, in order, each from its
      origin's node to its destination's node. */
  lemma {:induction false} AddEdgesEdges(b: Built, conns: seq<DirectConnection>, stops: map<string, StopPoint>)
    requires KeyedById(stops) && AddEdges(b, conns, stops).Ok?
    ensures var b1 := AddEdges(b, conns, stops).value;
            |b1.edges| == |b.edges| + |conns|
            && forall k :: 0 <= k < |conns| ==> EdgeOf(b1.edges, b1.index, conns[k], |b.edges| + k)
    decreases |conns|
  {
    if conns != [] {
      var n := |conns| - 1;
      var init := conns[..n];
      AddEdgesEdges(b, init, stops);
      var bp := AddEdges(b, init, stops).value;
      AddEdgeAppends(bp, conns[n], stops);
      var b1 := AddEdges(b, conns, stops).value;
      forall k | 0 <= k < n
        ensures EdgeOf(b1.edges, b1.index, conns[k], |b.edges| + k)
      {
        assert init[k] == conns[k];
        EdgeKept(bp, b1, conns[k], |b.edges| + k);
      }
    }
  }

  /** An edge keeps standing for its record as the graph grows. */
  lemma EdgeKept(b: Built, b1: Built, c: DirectConnection, e: nat)
    requires Grows(b, b1) && EdgeOf(b.edges, b.index, c, e)
    ensures EdgeOf(b1.edges, b1.index, c, e)
  {
    assert b1.edges[e] == b.edges[e];
  }

  /** The edge loop only looks up the stops its records mention. */
  lemma {:induction false} AddEdgesReadsOnlyItsStops(b: Built, conns: seq<DirectConnection>,
                                                   stops: map<string, StopPoint>, stops': map<string, StopPoint>)
    requires forall id :: id in StopIds(conns) ==> (id in stops <==> id in stops') && (id in stops ==> stops[id] == stops'[id])
    ensures AddEdges(b, conns, stops) == AddEdges(b, conns, stops')
    decreases |conns|
  {
    if conns != [] {
      var n := |conns| - 1;
      assert StopIds(conns) == StopIds(conns[..n]) + {conns[n].origin, conns[n].destination};
      AddEdgesReadsOnlyItsStops(b, conns[..n], stops, stops');
    }
  }

  /** Edges built from records with increasing departure lists are FIFO, so the
      search's answer is the earliest arrival. */
  lemma {:induction false} AddEdgesFifo(b: Built, conns: seq<DirectConnection>, stops: map<string, StopPoint>)
    requires AllFifo(b.edges) && AddEdges(b, conns, stops).Ok?
    ensures AllFifo(AddEdges(b, conns, stops).value.edges)
    decreases |conns|
  {
    if conns != [] {
      var n := |conns| - 1;
      AddEdgesFifo(b, conns[..n], stops);
      var bp := AddEdges(b, conns[..n], stops).value;
      assert StrictlyIncreasing(conns[n].departureTimes);
      FifoOfTimetable(conns[n]);
      var b1 := AddEdges(b, conns, stops).value;
      assert b1.edges == InsertNode(InsertNode(bp, stops[conns[n].origin]).0, stops[conns[n].destination]).0.edges
                         + [b1.edges[|b1.edges| - 1]];
    }
  }

  /** Walking edges are FIFO. */
  lemma WalkingFifo(near: seq<seq<Neighbour>>)
    ensures AllFifo(WalkingEdges(near))
  {
    var es := WalkingEdges(near);
    forall j | 0 <= j < |es|
      ensures Fifo(es[j].weight)
    {
      assert es[j] in es;
      var i, k :| 0 <= i < |near| && 0 <= k < |near[i]| && near[i][k].node != i
                  && es[j] == Edge(i, near[i][k].node, FromDist(near[i][k].dist));
      FifoOfWalking(near[i][k].dist);
    }
  }

  /** Walking edges join nodes of the graph when the neighbour index reports only nodes. */
  lemma WalkingWithin(near: seq<seq<Neighbour>>, n: nat)
    requires |near| == n && NeighboursWithin(near, n)
    ensures EdgesWithin(WalkingEdges(near), n)
  {
    forall e | e in WalkingEdges(near)
      ensures e.source < n && e.target < n
    {
      var i, k :| 0 <= i < |near| && 0 <= k < |near[i]| && near[i][k].node != i
                  && e == Edge(i, near[i][k].node, FromDist(near[i][k].dist));
    }
  }

  // ------------------------------------------------------------ answers

  /** How many entries the first two revisions return. */
  const TopLimit := 50

  /** The search `time_dependent_dijkstra` runs on a graph: its edges and nodes,
      the start's node, and the start minute as the start score. */
  function SearchFrom(b: Built, start: string, startTime: MinuteOfDay): Problem
    requires start in b.index
  {
    Problem(b.edges, |b.nodes|, b.index[start], startTime)
  }

  /** One answer before its nodes are turned into stations: a scored node, its
      minutes from the start, and its parent chain. */
  datatype Scored = Scored(node: nat, minutes: nat, chain: seq<nat>)

  /** `a` answers for its node on the finished search `s`: its minutes are the
      node's best score less the start minute, and its chain runs through the
      parents from the node to the start, which has no parent. */
  ghost predicate Answers(p: Problem, s: State, a: Scored)
  {
    a.node in s.scores && s.scores[a.node] >= p.startScore
    && a.minutes == s.scores[a.node] - p.startScore
    && ParentChain(s.parents, a.node, a.chain)
    && a.chain[|a.chain| - 1] == p.start && p.start !in s.parents
    && WithinNodes(a, p.n)
  }

  predicate AllWithin(found: seq<Scored>, n: nat)
  {
    forall i :: 0 <= i < |found| ==> WithinNodes(found[i], n)
  }

  lemma AnswersWithin(p: Problem, s: State, found: seq<Scored>)
    requires AllAnswer(p, s, found)
    ensures AllWithin(found, p.n)
  {
    assert forall i :: 0 <= i < |found| ==> Answers(p, s, found[i]);
  }

  /** The node and every node of the chain are among the first `n`. */
  predicate WithinNodes(a: Scored, n: nat)
  {
    a.node < n && forall k :: 0 <= k < |a.chain| ==> a.chain[k] < n
  }

  /** The answers are for distinct scored nodes; with no limit every scored node
      has one, with a limit there are as many as the limit allows. */
  ghost predicate AnswersAll(p: Problem, s: State, found: seq<Scored>, limit: Option<nat>)
  {
    AllAnswer(p, s, found) && Covers(s.scores.Keys, found, limit)
  }

  ghost predicate AllAnswer(p: Problem, s: State, out: seq<Scored>)
  {
    forall i :: 0 <= i < |out| ==> Answers(p, s, out[i])
  }

  /** The answers are for distinct keys; with no limit every key has one, with a
      limit there are as many as the limit allows. */
  ghost predicate Covers(keys: set<nat>, found: seq<Scored>, limit: Option<nat>)
  {
    (forall i, j :: 0 <= i < j < |found| ==> found[i].node != found[j].node)
    && |found| == (if limit.Some? && limit.value < |keys| then limit.value else |keys|)
    && (limit.None? ==> forall v :: v in keys ==> exists i :: 0 <= i < |found| && found[i].node == v)
  }

  /** The entries `map(..).collect()` builds from the answers, in their order. */
  function StationPaths(nodes: seq<Station>, found: seq<Scored>): (r: seq<StationPath>)
    requires AllWithin(found, |nodes|)
    ensures |r| == |found| && forall i :: 0 <= i < |found| ==> r[i] == StationPathOf(nodes, found[i])
  {
    seq(|found|, i requires 0 <= i < |found| => StationPathOf(nodes, found[i]))
  }

  function StationPathOf(nodes: seq<Station>, a: Scored): StationPath
    requires WithinNodes(a, |nodes|)
  {
    StationPath(a.minutes, nodes[a.node], seq(|a.chain|, i requires 0 <= i < |a.chain| => nodes[a.chain[i]]))
  }

  /** The entries `map(..).collect()` builds from the answers, in their order. */
  function IdPaths(nodes: seq<Station>, found: seq<Scored>): (r: seq<IdPath>)
    requires AllWithin(found, |nodes|)
    ensures |r| == |found| && forall i :: 0 <= i < |found| ==> r[i] == IdPathOf(nodes, found[i])
  {
    seq(|found|, i requires 0 <= i < |found| => IdPathOf(nodes, found[i]))
  }

  function IdPathOf(nodes: seq<Station>, a: Scored): IdPath
    requires WithinNodes(a, |nodes|)
  {
    IdPath(a.minutes, nodes[a.node], seq(|a.chain|, i requires 0 <= i < |a.chain| => nodes[a.chain[i]].id))
  }

  /** Every node of a parent chain from a scored node is settled. */
  lemma ChainSettled(p: Problem, s: State, w: seq<nat>)
    requires Searched(p, s) && |w| >= 1 && w[0] in s.scores && ParentChain(s.parents, w[0], w)
    ensures forall x :: x in w ==> x in s.dist && x < p.n
  {
    forall i | 0 <= i < |w|
      ensures w[i] in s.dist
    {
      if i > 0 {
        assert w[i - 1] in s.parents && s.parents[w[i - 1]] == w[i];
        assert w[i - 1] in s.dist;
      }
    }
  }

  /** `get_path` for one scored node: it returns the node's chain to the start,
      unless the start is its own parent, when it never returns. */
  method PathOf(p: Problem, s: State, v: nat) returns (r: Option<Scored>)
    requires Searched(p, s) && v in s.scores
    ensures r.None? <==> SelfLoop(p.edges, p.start)
    ensures r.Some? ==> r.value.node == v && Answers(p, s, r.value)
  {
    SettlingOrderRanks(p, s);
    var walk := GetPath(s.parents, v, s.pos);
    if walk.Endless? {
      ChainEndsAtStart(p, s, walk.prefix);
      return None;
    }
    ChainAnswers(p, s, v, walk.path);
    return Some(Scored(v, s.scores[v] - p.startScore, walk.path));
  }

  /** A parent chain from a scored node that stops at a node without a parent
      answers for that node. */
  lemma ChainAnswers(p: Problem, s: State, v: nat, w: seq<nat>)
    requires Searched(p, s) && v in s.scores
    requires |w| >= 1 && ParentChain(s.parents, v, w) && w[|w| - 1] !in s.parents
    ensures Answers(p, s, Scored(v, s.scores[v] - p.startScore, w))
  {
    ChainEndsAtStart(p, s, w);
    ChainSettled(p, s, w);
  }

  /** The scores map walked in its unspecified order (`into_iter`, optionally
      `take(limit)`), with `get_path` for each entry. The walk never returns
      when the start is its own parent and some entry is walked. */
  method CollectPaths(p: Problem, s: State, limit: Option<nat>) returns (r: Outcome<seq<Scored>>)
    requires Searched(p, s)
    ensures !r.Aborted?
    ensures r.Diverges? <==> SelfLoop(p.edges, p.start) && limit != Some(0)
    ensures r.Done? ==> AnswersAll(p, s, r.value, limit)
  {
    var remaining := s.scores.Keys;
    var out: seq<Scored> := [];
    while remaining != {} && (limit.None? || |out| < limit.value)
      invariant Tally(s.scores.Keys, remaining, out)
      invariant limit.Some? ==> |out| <= limit.value
      invariant AllAnswer(p, s, out)
      decreases |remaining|
    {
      var v :| v in remaining;
      var entry := PathOf(p, s, v);
      if entry.None? {
        return Diverges;
      }
      TallyStep(s.scores.Keys, remaining, out, entry.value);
      AllAnswerSnoc(p, s, out, entry.value);
      out := out + [entry.value];
      remaining := remaining - {v};
    }
    CollectDone(p, s, remaining, out, limit);
    TallyDone(s.scores.Keys, remaining, out, limit);
    return Done(out);
  }

  /** Bookkeeping of the walk over a key set: the answers so far are for distinct
      keys no longer remaining, and every key is either remaining or answered. */
  ghost predicate Tally(keys: set<nat>, remaining: set<nat>, out: seq<Scored>)
  {
    remaining <= keys && |out| + |remaining| == |keys|
    && (forall i :: 0 <= i < |out| ==> out[i].node in keys && out[i].node !in remaining)
    && (forall i, j :: 0 <= i < j < |out| ==> out[i].node != out[j].node)
    && (forall v :: v in keys && v !in remaining ==> exists i :: 0 <= i < |out| && out[i].node == v)
  }

  /** When the walk over the scores stops without diverging and has walked some
      entry, the start is not its own parent. */
  lemma CollectDone(p: Problem, s: State, remaining: set<nat>, out: seq<Scored>, limit: Option<nat>)
    requires Searched(p, s) && Tally(s.scores.Keys, remaining, out) && AllAnswer(p, s, out)
    requires remaining == {} || (limit.Some? && |out| >= limit.value)
    ensures SelfLoop(p.edges, p.start) ==> limit == Some(0)
  {
    if |out| > 0 {
      assert Answers(p, s, out[0]);
    } else if limit != Some(0) {
      assert p.start !in s.scores;
    }
  }

  /** A finished walk over a key set covers it up to the limit. */
  lemma TallyDone(keys: set<nat>, remaining: set<nat>, out: seq<Scored>, limit: Option<nat>)
    requires Tally(keys, remaining, out)
    requires limit.Some? ==> |out| <= limit.value
    requires remaining == {} || (limit.Some? && |out| >= limit.value)
    ensures Covers(keys, out, limit)
  {
  }

  lemma AllAnswerSnoc(p: Problem, s: State, out: seq<Scored>, a: Scored)
    requires AllAnswer(p, s, out) && Answers(p, s, a)
    ensures AllAnswer(p, s, out + [a])
  {
    assert forall i :: 0 <= i < |out| ==> (out + [a])[i] == out[i];
  }

  lemma TallyStep(keys: set<nat>, remaining: set<nat>, out: seq<Scored>, a: Scored)
    requires Tally(keys, remaining, out) && a.node in remaining
    ensures Tally(keys, remaining - {a.node}, out + [a])
  {
    var out' := out + [a];
    forall v | v in keys && v !in remaining - {a.node}
      ensures exists i :: 0 <= i < |out'| && out'[i].node == v
    {
      if v == a.node {
        assert out'[|out|].node == v;
      } else {
        var i :| 0 <= i < |out| && out[i].node == v;
        assert out'[i].node == v;
      }
    }
  }

  /** Over FIFO edges an answer's minutes are those of the earliest journey: some
      walk along the edges from the start reaches the node that many minutes
      after the start minute, and none reaches it sooner. */
  lemma AnswerIsEarliest(p: Problem, s: State, a: Scored)
    requires Searched(p, s) && AllFifo(p.edges) && Answers(p, s, a)
    ensures a.node != p.start
    ensures exists w :: IsWalk(p.edges, p.start, w) && WalkEnd(p.edges, p.start, w) == a.node
                        && WalkArrival(p.edges, p.startScore, w) == p.startScore + a.minutes
    ensures forall w :: IsWalk(p.edges, p.start, w) && WalkEnd(p.edges, p.start, w) == a.node ==>
                        p.startScore + a.minutes <= WalkArrival(p.edges, p.startScore, w)
  {
    SearchedIsEarliest(p, s, a.node);
  }
}
