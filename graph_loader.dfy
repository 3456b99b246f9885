/** `load_graph_data`: turns the stored connection records into node pairs,
    one per scheduled hop plus one per walking neighbour, and rewrites the
    `nodePair` collection with them. */
module GraphLoader {
  import opened Wrappers
  import opened Panics
  import opened Times
  import opened Stations
  import opened DirectConnections
  import opened Connection
  import opened NodePairs
  import Graph

  /** The stop points for the ids, fetched one by one; a missing one is an
      `unwrap` on `None`. */
  function StopPointMap(stops: map<string, StopPoint>, ids: set<string>): (r: Result<map<string, StopPoint>, Panic>)
    ensures r.Err? <==> !(ids <= stops.Keys)
    ensures r.Err? ==> r.error == UnwrapOnNone
    ensures r.Ok? ==> r.value.Keys == ids && forall id :: id in ids ==> r.value[id] == stops[id]
  {
    if ids <= stops.Keys then Ok(map id | id in ids :: stops[id]) else Err(UnwrapOnNone)
  }

  /** Every record's two stops are in the map. */
  predicate Covers(stopMap: map<string, StopPoint>, edges: seq<DirectConnection>)
  {
    forall k :: 0 <= k < |edges| ==> edges[k].origin in stopMap && edges[k].destination in stopMap
  }

  /** A map holding every stop id of the records covers them. */
  lemma CoversOfStopIds(stopMap: map<string, StopPoint>, edges: seq<DirectConnection>)
    requires Graph.StopIds(edges) <= stopMap.Keys
    ensures Covers(stopMap, edges)
  {
    forall k | 0 <= k < |edges|
      ensures edges[k].origin in stopMap && edges[k].destination in stopMap
    {
      assert edges[k].origin in Graph.StopIds(edges) && edges[k].destination in Graph.StopIds(edges);
    }
  }

  /** `tfl_pairs`: one pair per record, in record order, joining the stations of
      its two stops with the record's timetabled weight. Building the weight of
      a record whose departures are not strictly increasing panics. */
  function TflPairs(stopMap: map<string, StopPoint>, edges: seq<DirectConnection>): (r: Result<seq<NodePair>, Panic>)
    requires Covers(stopMap, edges)
    ensures r.Err? <==> exists k :: 0 <= k < |edges| && !StrictlyIncreasing(edges[k].departureTimes)
    ensures r.Err? ==> r.error == SubtractWithOverflow
    ensures r.Ok? ==> |r.value| == |edges|
    ensures r.Ok? ==> forall k :: 0 <= k < |edges| ==>
                        r.value[k].from == StationOf(stopMap[edges[k].origin])
                        && r.value[k].to == StationOf(stopMap[edges[k].destination])
                        && r.value[k].edge == ConnectionOf(edges[k])
  {
    if forall k :: 0 <= k < |edges| ==> StrictlyIncreasing(edges[k].departureTimes) then
      Ok(seq(|edges|, k requires 0 <= k < |edges| =>
        NodePair(StationOf(stopMap[edges[k].origin]), StationOf(stopMap[edges[k].destination]), ConnectionOf(edges[k]))))
    else Err(SubtractWithOverflow)
  }

  /** The stations of all pairs, by id; a later station with the same id replaces
      an earlier one. */
  function NodeMap(pairs: seq<NodePair>): (nodes: map<string, Station>)
    ensures forall id :: id in nodes <==> exists k :: 0 <= k < |pairs| && (pairs[k].from.id == id || pairs[k].to.id == id)
    decreases |pairs|
  {
    if pairs == [] then map[]
    else
      var last := pairs[|pairs| - 1];
      var front := pairs[..|pairs| - 1];
      assert forall k :: 0 <= k < |front| ==> front[k] == pairs[k];
      NodeMap(front)[last.from.id := last.from][last.to.id := last.to]
  }

  /** Each pair joins the stations of two stops of the map, under their ids. */
  predicate StationsOfStops(pairs: seq<NodePair>, stopMap: map<string, StopPoint>)
  {
    forall k :: 0 <= k < |pairs| ==>
      pairs[k].from.id in stopMap && pairs[k].from == StationOf(stopMap[pairs[k].from.id])
      && pairs[k].to.id in stopMap && pairs[k].to == StationOf(stopMap[pairs[k].to.id])
  }

  /** The node set is the stations of the records' stops, one per stop id. */
  lemma NodeMapOfTflPairs(stopMap: map<string, StopPoint>, edges: seq<DirectConnection>)
    requires Covers(stopMap, edges) && KeyedById(stopMap)
    requires TflPairs(stopMap, edges).Ok?
    ensures var nodes := NodeMap(TflPairs(stopMap, edges).value);
            nodes.Keys == Graph.StopIds(edges)
            && forall id :: id in nodes ==> nodes[id] == StationOf(stopMap[id])
  {
    var pairs := TflPairs(stopMap, edges).value;
    var nodes := NodeMap(pairs);
    forall k | 0 <= k < |pairs|
      ensures pairs[k].from.id == edges[k].origin && pairs[k].to.id == edges[k].destination
    {
    }
    assert StationsOfStops(pairs, stopMap);
    forall id | id in nodes
      ensures id in Graph.StopIds(edges) && nodes[id] == StationOf(stopMap[id])
    {
      var k :| 0 <= k < |pairs| && (pairs[k].from.id == id || pairs[k].to.id == id);
      assert edges[k].origin == id || edges[k].destination == id;
      NodeMapHolds(pairs, id, stopMap);
    }
    forall id | id in Graph.StopIds(edges)
      ensures id in nodes
    {
      var k :| 0 <= k < |edges| && (edges[k].origin == id || edges[k].destination == id);
      assert pairs[k].from.id == id || pairs[k].to.id == id;
    }
  }

  /** Every station in the pairs is the station of its stop, so whichever one the
      map kept is. */
  lemma {:induction false} NodeMapHolds(pairs: seq<NodePair>, id: string, stopMap: map<string, StopPoint>)
    requires StationsOfStops(pairs, stopMap)
    requires id in NodeMap(pairs)
    ensures id in stopMap && NodeMap(pairs)[id] == StationOf(stopMap[id])
    decreases |pairs|
  {
    var last := pairs[|pairs| - 1];
    var front := pairs[..|pairs| - 1];
    if id != last.from.id && id != last.to.id {
      assert forall k :: 0 <= k < |front| ==> front[k] == pairs[k];
      NodeMapHolds(front, id, stopMap);
    }
  }

  /** The walking pairs of one node: one per neighbour the ball tree reports
      within the radius, the node itself included. */
  function WalkingPairsOf(node: Station, near: seq<(real, Station)>): (ps: seq<NodePair>)
    ensures |ps| == |near|
    ensures forall j :: 0 <= j < |near| ==> ps[j] == NodePair(node, near[j].1, FromDist(near[j].0))
  {
    seq(|near|, j requires 0 <= j < |near| => NodePair(node, near[j].1, FromDist(near[j].0)))
  }

  /** `walking_pairs`: the nodes in the map's iteration order, each followed by
      its neighbours in the order reported. `set_id` is the default no-op for a
      node pair, so it leaves them as built. */
  function WalkingPairs(nodes: map<string, Station>, order: seq<string>, nearby: Point -> seq<(real, Station)>): (ps: seq<NodePair>)
    requires forall k :: 0 <= k < |order| ==> order[k] in nodes
    decreases |order|
  {
    if order == [] then []
    else
      var node := nodes[order[|order| - 1]];
      WalkingPairs(nodes, order[..|order| - 1], nearby) + WalkingPairsOf(node, nearby(node.location))
  }

  /** A walking pair joins exactly a node and one of its reported neighbours. */
  lemma {:induction false} WalkingPairsMembers(nodes: map<string, Station>, order: seq<string>,
                                              nearby: Point -> seq<(real, Station)>, np: NodePair)
    requires forall k :: 0 <= k < |order| ==> order[k] in nodes
    ensures np in WalkingPairs(nodes, order, nearby) <==>
            exists k, d :: 0 <= k < |order| && np.from == nodes[order[k]]
                           && (d, np.to) in nearby(np.from.location) && np.edge == FromDist(d)
    decreases |order|
  {
    if order != [] {
      var front := order[..|order| - 1];
      var node := nodes[order[|order| - 1]];
      var near := nearby(node.location);
      WalkingPairsMembers(nodes, front, nearby, np);
      assert forall k :: 0 <= k < |front| ==> front[k] == order[k];
      if np in WalkingPairsOf(node, near) {
        var j :| 0 <= j < |near| && WalkingPairsOf(node, near)[j] == np;
        assert near[j] == (near[j].0, np.to);
        assert np.from == nodes[order[|order| - 1]];
      }
      if exists k, d :: 0 <= k < |order| && np.from == nodes[order[k]]
                        && (d, np.to) in nearby(np.from.location) && np.edge == FromDist(d) {
        var k, d :| 0 <= k < |order| && np.from == nodes[order[k]]
                    && (d, np.to) in nearby(np.from.location) && np.edge == FromDist(d);
        if k == |order| - 1 {
          var j :| 0 <= j < |near| && near[j] == (d, np.to);
          assert WalkingPairsOf(node, near)[j] == np;
        }
      }
    }
  }

  /** How many neighbours the ball tree reports for the stations of `order`, summed. */
  function WalkingCount(stops: map<string, StopPoint>, order: seq<string>, nearby: Point -> seq<(real, Station)>): nat
    requires forall k :: 0 <= k < |order| ==> order[k] in stops
    decreases |order|
  {
    if order == [] then 0
    else WalkingCount(stops, order[..|order| - 1], nearby) + |nearby(StationOf(stops[order[|order| - 1]]).location)|
  }

  /** One walking pair per reported neighbour of each listed node. */
  lemma {:induction false} WalkingPairsLength(nodes: map<string, Station>, order: seq<string>,
                                             nearby: Point -> seq<(real, Station)>, stops: map<string, StopPoint>)
    requires forall k :: 0 <= k < |order| ==> order[k] in nodes && order[k] in stops
                                              && nodes[order[k]] == StationOf(stops[order[k]])
    ensures |WalkingPairs(nodes, order, nearby)| == WalkingCount(stops, order, nearby)
    decreases |order|
  {
    if order != [] {
      WalkingPairsLength(nodes, order[..|order| - 1], nearby, stops);
    }
  }

  /** With no self filter, a node the tree reports at distance 0 from itself is
      paired with itself, at zero minutes. */
  lemma WalkingPairsIncludeSelf(nodes: map<string, Station>, order: seq<string>,
                                nearby: Point -> seq<(real, Station)>, k: nat)
    requires forall i :: 0 <= i < |order| ==> order[i] in nodes
    requires k < |order|
    requires (0.0, nodes[order[k]]) in nearby(nodes[order[k]].location)
    ensures NodePair(nodes[order[k]], nodes[order[k]], Connection(0, Instantaneous)) in WalkingPairs(nodes, order, nearby)
  {
    WalkingPairsMembers(nodes, order, nearby, NodePair(nodes[order[k]], nodes[order[k]], FromDist(0.0)));
  }

  /** The `nodePair` collection: `insert_many` appends documents with fresh
      database ids, so it is a list. */
  class PairRepository {
    var docs: seq<NodePair>

    constructor (docs0: seq<NodePair>)
      ensures docs == docs0
    {
      docs := docs0;
    }

    /** `collection.drop`. */
    method Drop()
      modifies this
      ensures docs == []
    {
      docs := [];
    }

    /** `insert_many`. */
    method InsertMany(pairs: seq<NodePair>)
      modifies this
      ensures docs == old(docs) + pairs
    {
      docs := docs + pairs;
    }
  }

  /** `order` lists every id of `ids` exactly once: the order in which iterating
      a map keyed by those ids visits them. */
  predicate EnumeratesOnce(order: seq<string>, ids: set<string>)
  {
    (forall k :: 0 <= k < |order| ==> order[k] in ids)
    && (forall id :: id in ids ==> exists k :: 0 <= k < |order| && order[k] == id)
    && forall i, j :: 0 <= i < j < |order| ==> order[i] != order[j]
  }

  /** What `load_graph_data` leaves in the `nodePair` collection, or the panic
      that stops it first: a stop id with no stop point, then a record whose
      departures are not strictly increasing. The ball-tree query is the
      oracle `nearby` (the neighbours within the radius, as distance and
      station) and the order the node map yields its stations in is `order`. */
  function GraphPairs(edges: seq<DirectConnection>, stops: map<string, StopPoint>,
                      nearby: Point -> seq<(real, Station)>, order: seq<string>): (r: Result<seq<NodePair>, Panic>)
    requires KeyedById(stops)
    requires EnumeratesOnce(order, Graph.StopIds(edges))
    ensures r.Err? <==> !(Graph.StopIds(edges) <= stops.Keys)
                        || exists k :: 0 <= k < |edges| && !StrictlyIncreasing(edges[k].departureTimes)
    ensures r.Err? ==> r.error == if Graph.StopIds(edges) <= stops.Keys then SubtractWithOverflow else UnwrapOnNone
  {
    match StopPointMap(stops, Graph.StopIds(edges))
    case Err(e) => Err(e)
    case Ok(stopMap) =>
      CoversOfStopIds(stopMap, edges);
      match TflPairs(stopMap, edges)
      case Err(e) => Err(e)
      case Ok(tflPairs) =>
        NodeMapOfTflPairs(stopMap, edges);
        Ok(tflPairs + WalkingPairs(NodeMap(tflPairs), order, nearby))
  }

  /** On success the collection holds one pair per record, in record order,
      followed by the walking pairs of every node, each node visited once, and
      every station is the one built from its stop point. */
  lemma GraphPairsMeaning(edges: seq<DirectConnection>, stops: map<string, StopPoint>,
                          nearby: Point -> seq<(real, Station)>, order: seq<string>)
    requires KeyedById(stops)
    requires EnumeratesOnce(order, Graph.StopIds(edges))
    requires GraphPairs(edges, stops, nearby, order).Ok?
    ensures var ps := GraphPairs(edges, stops, nearby, order).value;
            |ps| >= |edges|
            && (forall k :: 0 <= k < |edges| ==>
                  ps[k] == NodePair(StationOf(stops[edges[k].origin]), StationOf(stops[edges[k].destination]), ConnectionOf(edges[k])))
            && (forall np :: np in ps[|edges|..] <==>
                  exists id, d :: id in Graph.StopIds(edges) && np.from == StationOf(stops[id])
                                  && (d, np.to) in nearby(np.from.location) && np.edge == FromDist(d))
            && |ps| == |edges| + WalkingCount(stops, order, nearby)
  {
    var stopMap := StopPointMap(stops, Graph.StopIds(edges)).value;
    CoversOfStopIds(stopMap, edges);
    var tflPairs := TflPairs(stopMap, edges).value;
    NodeMapOfTflPairs(stopMap, edges);
    var nodes := NodeMap(tflPairs);
    var ps := GraphPairs(edges, stops, nearby, order).value;
    assert ps[|edges|..] == WalkingPairs(nodes, order, nearby);
    forall np
      ensures np in ps[|edges|..] <==>
              exists id, d :: id in Graph.StopIds(edges) && np.from == StationOf(stops[id])
                              && (d, np.to) in nearby(np.from.location) && np.edge == FromDist(d)
    {
      WalkingPairsOfEveryNode(nodes, order, nearby, stops, Graph.StopIds(edges), np);
    }
    WalkingPairsLength(nodes, order, nearby, stops);
  }

  /** When `order` lists every node once, the walking pairs are those of every
      node's station. */
  lemma WalkingPairsOfEveryNode(nodes: map<string, Station>, order: seq<string>, nearby: Point -> seq<(real, Station)>,
                                stops: map<string, StopPoint>, ids: set<string>, np: NodePair)
    requires EnumeratesOnce(order, ids)
    requires forall id :: id in ids ==> id in nodes && id in stops && nodes[id] == StationOf(stops[id])
    ensures np in WalkingPairs(nodes, order, nearby) <==>
            exists id, d :: id in ids && np.from == StationOf(stops[id])
                            && (d, np.to) in nearby(np.from.location) && np.edge == FromDist(d)
  {
    WalkingPairsMembers(nodes, order, nearby, np);
    if exists id, d :: id in ids && np.from == StationOf(stops[id])
                       && (d, np.to) in nearby(np.from.location) && np.edge == FromDist(d) {
      var id, d :| id in ids && np.from == StationOf(stops[id])
                   && (d, np.to) in nearby(np.from.location) && np.edge == FromDist(d);
      var k :| 0 <= k < |order| && order[k] == id;
    }
  }

  /** `load_graph_data` with the records and stop points already fetched. Every
      panic happens before the collection is touched; otherwise the collection
      is dropped and refilled with the transit pairs, then the walking pairs. */
  method LoadGraphData(repo: PairRepository, edges: seq<DirectConnection>, stops: map<string, StopPoint>,
                       nearby: Point -> seq<(real, Station)>, order: seq<string>)
    returns (r: Result<(), Panic>)
    requires KeyedById(stops)
    requires EnumeratesOnce(order, Graph.StopIds(edges))
    modifies repo
    ensures r.Err? ==> repo.docs == old(repo.docs)
    ensures r.Err? <==> GraphPairs(edges, stops, nearby, order).Err?
    ensures r.Err? ==> r.error == GraphPairs(edges, stops, nearby, order).error
    ensures r.Ok? ==> repo.docs == GraphPairs(edges, stops, nearby, order).value
  {
    var stopIds := Graph.CollectStopIds(edges);
    var fetched := StopPointMap(stops, stopIds);
    if fetched.Err? {
      return Err(fetched.error);
    }
    var stopMap := fetched.value;
    CoversOfStopIds(stopMap, edges);
    var tfl := TflPairs(stopMap, edges);
    if tfl.Err? {
      return Err(tfl.error);
    }
    var tflPairs := tfl.value;
    NodeMapOfTflPairs(stopMap, edges);
    var walkingPairs := WalkingPairs(NodeMap(tflPairs), order, nearby);
    assert GraphPairs(edges, stops, nearby, order) == Ok(tflPairs + walkingPairs);
    repo.Drop();
    repo.InsertMany(tflPairs);
    assert repo.docs == tflPairs;
    repo.InsertMany(walkingPairs);
    r := Ok(());
  }
}
