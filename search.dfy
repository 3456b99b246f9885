/** The time-dependent Dijkstra search shared by the three revisions of `TflGraph`,
    and the reference it is proved against: the arrival time of a journey (a walk
    along edges, each left as soon as its next departure allows). */
module Search {
  import opened Wrappers
  import opened Panics
  import opened Times
  import opened DirectConnections
  import opened Connection
  import opened Stations

  // ------------------------------------------------------------ journeys

  /** The wait the search reads from an edge at minute `t`; past the end of a
      table (where the search itself panics) it counts as no wait. */
  function WaitAt(c: Connection, t: nat): nat
  {
    match GetMinutesToDeparture(c, t)
    case Ok(w) => w
    case Err(_) => 0
  }

  /** The minute one reaches the far end of an edge when standing at its start at minute `t`. */
  function Arrival(c: Connection, t: nat): nat
  {
    t + WaitAt(c, t) + c.durationMinutes
  }

  /** Leaving later never arrives earlier ("first in, first out"). */
  ghost predicate Fifo(c: Connection)
  {
    forall t: nat, t': nat :: t <= t' ==> Arrival(c, t) <= Arrival(c, t')
  }

  /** Walking edges are FIFO. */
  lemma FifoOfWalking(dist: real)
    ensures Fifo(FromDist(dist))
  {
    var c := FromDist(dist);
    forall t: nat, t': nat | t <= t'
      ensures Arrival(c, t) <= Arrival(c, t')
    {
      assert WaitAt(c, t) == 0 && WaitAt(c, t') == 0;
    }
  }

  /** Timetabled edges built from an increasing departure list are FIFO. */
  lemma FifoOfTimetable(dc: DirectConnection)
    requires StrictlyIncreasing(dc.departureTimes)
    ensures Fifo(ConnectionOf(dc))
  {
    var c := ConnectionOf(dc);
    var ds := dc.departureTimes;
    forall t: nat, t': nat | t <= t'
      ensures Arrival(c, t) <= Arrival(c, t')
    {
      if t < MinutesPerDay {
        WaitTableMeaning(ds, t);
        if t' < MinutesPerDay {
          WaitTableMeaning(ds, t');
          var w' := WaitTable(ds)[t'];
          if t' + w' in ds && t' + w' >= t {
            assert t + WaitTable(ds)[t] <= t' + w';
          }
        }
      }
    }
  }

  /** The node a walk (a list of edge indices) ends at. */
  function WalkEnd(edges: seq<Edge>, from: nat, w: seq<nat>): nat
  {
    if w == [] || w[|w| - 1] >= |edges| then from else edges[w[|w| - 1]].target
  }

  /** `w` is a list of edges, each leaving where the previous one arrived, from `from`. */
  predicate IsWalk(edges: seq<Edge>, from: nat, w: seq<nat>)
    decreases |w|
  {
    w == [] ||
    (w[|w| - 1] < |edges|
     && IsWalk(edges, from, w[..|w| - 1])
     && edges[w[|w| - 1]].source == WalkEnd(edges, from, w[..|w| - 1]))
  }

  /** The minute a walk started at minute `t` ends. */
  function WalkArrival(edges: seq<Edge>, t: nat, w: seq<nat>): nat
    decreases |w|
  {
    if w == [] then t
    else if w[|w| - 1] >= |edges| then WalkArrival(edges, t, w[..|w| - 1])
    else Arrival(edges[w[|w| - 1]].weight, WalkArrival(edges, t, w[..|w| - 1]))
  }

  predicate EdgesWithin(edges: seq<Edge>, n: nat)
  {
    forall e :: e in edges ==> e.source < n && e.target < n
  }

  ghost predicate AllFifo(edges: seq<Edge>)
  {
    forall j :: 0 <= j < |edges| ==> Fifo(edges[j].weight)
  }

  /** Every edge leaving a settled node reaches a settled node, no later than the
      edge would bring one there from the settled time. */
  predicate ClosedUnder(edges: seq<Edge>, dist: map<nat, nat>)
  {
    forall j :: 0 <= j < |edges| && edges[j].source in dist ==>
      edges[j].target in dist && dist[edges[j].target] <= Arrival(edges[j].weight, dist[edges[j].source])
  }

  /** Lower bound: over FIFO edges, no journey from the start reaches a node
      before its settled time, and every node a journey reaches is settled. */
  lemma {:induction false} NoEarlierJourney(edges: seq<Edge>, dist: map<nat, nat>, start: nat,
                                            startScore: nat, w: seq<nat>)
    requires ClosedUnder(edges, dist)
    requires AllFifo(edges)
    requires start in dist && dist[start] <= startScore
    requires IsWalk(edges, start, w)
    ensures WalkEnd(edges, start, w) in dist
    ensures dist[WalkEnd(edges, start, w)] <= WalkArrival(edges, startScore, w)
    decreases |w|
  {
    if w != [] {
      var p := w[..|w| - 1];
      var j := w[|w| - 1];
      NoEarlierJourney(edges, dist, start, startScore, p);
      var u := WalkEnd(edges, start, p);
      var a := WalkArrival(edges, startScore, p);
      assert Fifo(edges[j].weight);
      assert Arrival(edges[j].weight, dist[u]) <= Arrival(edges[j].weight, a);
    }
  }

  /** The settled nodes form a tree rooted at the start: every other settled node
      was reached over its `via` edge from its parent, settled earlier. */
  predicate SearchTree(edges: seq<Edge>, start: nat, startScore: nat, dist: map<nat, nat>,
                       parents: map<nat, nat>, via: map<nat, nat>, pos: map<nat, nat>)
  {
    start in dist && dist[start] == startScore && pos.Keys == dist.Keys
    && forall v :: v in dist && v != start ==>
         v in parents && v in via && parents[v] in dist && pos[parents[v]] < pos[v]
         && via[v] < |edges| && edges[via[v]].source == parents[v] && edges[via[v]].target == v
         && dist[v] == Arrival(edges[via[v]].weight, dist[parents[v]])
  }

  /** The journey the tree records for `v`: the `via` edges from the start to `v`. */
  ghost function TreeWalk(edges: seq<Edge>, start: nat, startScore: nat, dist: map<nat, nat>,
                          parents: map<nat, nat>, via: map<nat, nat>, pos: map<nat, nat>, v: nat): seq<nat>
    requires SearchTree(edges, start, startScore, dist, parents, via, pos)
    requires v in dist
    decreases pos[v]
  {
    if v == start then []
    else TreeWalk(edges, start, startScore, dist, parents, via, pos, parents[v]) + [via[v]]
  }

  /** Upper bound: the recorded journey is a real journey to `v` that arrives
      exactly at the settled time. */
  lemma {:induction false} TreeWalkArrives(edges: seq<Edge>, start: nat, startScore: nat, dist: map<nat, nat>,
                                           parents: map<nat, nat>, via: map<nat, nat>, pos: map<nat, nat>, v: nat)
    requires SearchTree(edges, start, startScore, dist, parents, via, pos)
    requires v in dist
    ensures var w := TreeWalk(edges, start, startScore, dist, parents, via, pos, v);
            IsWalk(edges, start, w) && WalkEnd(edges, start, w) == v
            && WalkArrival(edges, startScore, w) == dist[v]
    decreases pos[v]
  {
    if v != start {
      var p := parents[v];
      TreeWalkArrives(edges, start, startScore, dist, parents, via, pos, p);
      var w := TreeWalk(edges, start, startScore, dist, parents, via, pos, v);
      assert w[..|w| - 1] == TreeWalk(edges, start, startScore, dist, parents, via, pos, p);
    }
  }

  // ------------------------------------------------------------ the search

  /** A heap entry `MinScored(score, node)`. */
  datatype Entry = Entry(score: nat, node: nat)

  /** A heap that is not empty holds an entry with a least score: `least` is one. */
  lemma {:induction false} LeastExists(h: seq<Entry>) returns (least: nat)
    requires |h| > 0
    ensures least < |h| && forall i :: 0 <= i < |h| ==> h[least].score <= h[i].score
    decreases |h|
  {
    if |h| == 1 {
      return 0;
    }
    var k := LeastExists(h[1..]);
    assert forall i :: 0 < i < |h| ==> h[i] == h[1..][i - 1];
    least := if h[0].score <= h[k + 1].score then 0 else k + 1;
  }

  lemma {:induction false} SubsetOfRange(s: set<nat>, n: nat)
    requires forall v :: v in s ==> v < n
    ensures |s| <= n
    decreases n
  {
    if n > 0 {
      SubsetOfRange(s - {n - 1}, n - 1);
    } else {
      assert forall v :: v !in s;
      assert s == {};
    }
  }

  /** The fixed inputs of one search: the edges, the number of nodes, the start
      node and the start minute. */
  datatype Problem = Problem(edges: seq<Edge>, n: nat, start: nat, startScore: nat)

  /** The state of a search: the heap, the visited set, the best scores and the
      parents, with the proof's bookkeeping (the minute each node was settled
      at, the order nodes were settled in, the edge that set each score, the
      minute of the latest expansion and how many nodes have been settled). */
  datatype State = State(
    visited: set<nat>,
    scores: map<nat, nat>,
    parents: map<nat, nat>,
    heap: seq<Entry>,
    dist: map<nat, nat>,
    pos: map<nat, nat>,
    via: map<nat, nat>,
    last: nat,
    settled: nat)

  function Remove(h: seq<Entry>, k: nat): seq<Entry>
    requires k < |h|
  {
    h[..k] + h[k + 1..]
  }

  lemma RemoveFacts(h: seq<Entry>, k: nat)
    requires k < |h|
    ensures |Remove(h, k)| == |h| - 1
    ensures forall e :: e in Remove(h, k) ==> e in h
    ensures forall e :: e in h && e.node != h[k].node ==> e in Remove(h, k)
  {
    var r := Remove(h, k);
    forall e | e in h && e.node != h[k].node
      ensures e in r
    {
      var i :| 0 <= i < |h| && h[i] == e;
      if i < k {
        assert r[i] == e;
      } else {
        assert r[i - 1] == e;
      }
    }
  }

  ghost predicate Shape(p: Problem, s: State)
  {
    p.start < p.n && EdgesWithin(p.edges, p.n)
    && s.scores.Keys == s.parents.Keys && s.scores.Keys == s.via.Keys
    && (forall v :: v in s.scores ==> v < p.n)
    && (forall v :: v in s.dist ==> v < p.n)
    && s.pos.Keys == s.dist.Keys
    && s.visited <= s.dist.Keys
    && (forall e :: e in s.heap ==> e.node < p.n)
  }

  ghost predicate StartOk(p: Problem, s: State)
  {
    (p.start in s.dist <==> s.dist.Keys != {})
    && (p.start !in s.dist ==> s.heap == [Entry(p.startScore, p.start)] && s.scores == map[] && s.visited == {})
    && (p.start in s.dist ==> s.dist[p.start] == p.startScore)
    && (p.start in s.parents ==> s.parents[p.start] == p.start)
  }

  /** No queued entry is earlier than the latest expansion. */
  ghost predicate HeapAbove(s: State)
  {
    forall e :: e in s.heap ==> e.score >= s.last
  }

  /** Once the start is settled, a queued entry is of a settled node or no
      better than its node's best score. */
  ghost predicate HeapCovered(p: Problem, s: State)
  {
    p.start in s.dist ==>
      forall e :: e in s.heap ==> e.node in s.dist || (e.node in s.scores && e.score >= s.scores[e.node])
  }

  /** The best score of every unsettled node is queued. */
  ghost predicate ScoresQueued(s: State)
  {
    forall v :: v in s.scores && v !in s.dist ==> Entry(s.scores[v], v) in s.heap
  }

  ghost predicate HeapOk(p: Problem, s: State)
  {
    HeapAbove(s) && HeapCovered(p, s) && ScoresQueued(s)
  }

  /** Settled times lie between the start minute and the latest expansion. */
  ghost predicate DistBounds(p: Problem, s: State)
  {
    forall v :: v in s.dist ==> p.startScore <= s.dist[v] <= s.last
  }

  /** A settled node other than the start keeps the score it was settled with. */
  ghost predicate DistScores(p: Problem, s: State)
  {
    forall v :: v in s.dist && v != p.start ==> v in s.scores && s.scores[v] == s.dist[v]
  }

  ghost predicate PosBelow(s: State)
  {
    forall v :: v in s.pos ==> s.pos[v] < s.settled
  }

  ghost predicate SettledOk(p: Problem, s: State)
  {
    DistBounds(p, s) && DistScores(p, s) && PosBelow(s)
  }

  /** Every best score was set over its `via` edge from its parent, settled before. */
  ghost predicate ParentsLinked(p: Problem, s: State)
  {
    forall v {:trigger s.via[v]} :: v in s.scores ==>
      v in s.parents && v in s.via && s.via[v] < |p.edges|
      && p.edges[s.via[v]].target == v && p.edges[s.via[v]].source == s.parents[v]
      && s.parents[v] in s.dist && s.parents[v] in s.pos
      && s.scores[v] == Arrival(p.edges[s.via[v]].weight, s.dist[s.parents[v]])
  }

  /** A settled node other than the start was settled after its parent. */
  ghost predicate ParentsFirst(p: Problem, s: State)
  {
    forall v {:trigger s.parents[v]} :: v in s.parents && v != p.start && v in s.pos && s.parents[v] in s.pos ==>
      s.pos[s.parents[v]] < s.pos[v]
  }

  ghost predicate ParentsOk(p: Problem, s: State)
  {
    ParentsLinked(p, s) && ParentsFirst(p, s)
  }

  /** Edge `j` out of the settled node `u` has been relaxed (a self-loop, relaxed
      while `u` is not yet visited, has given `u` a score). */
  ghost predicate Closed(p: Problem, s: State, u: nat, j: nat)
    requires u in s.dist && j < |p.edges|
  {
    var v := p.edges[j].target;
    var a := Arrival(p.edges[j].weight, s.dist[u]);
    (v in s.dist && s.dist[v] <= a && (v == u ==> v in s.scores))
    || (v !in s.dist && v in s.scores && s.scores[v] <= a)
  }

  ghost predicate ClosedFrom(p: Problem, s: State, u: nat, from: nat)
    requires u in s.dist
  {
    forall j :: from <= j < |p.edges| && p.edges[j].source == u ==> Closed(p, s, u, j)
  }

  ghost predicate AllClosed(p: Problem, s: State)
  {
    forall u :: u in s.visited ==> u in s.dist && ClosedFrom(p, s, u, 0)
  }

  ghost predicate Core(p: Problem, s: State)
  {
    Shape(p, s) && StartOk(p, s) && HeapOk(p, s) && SettledOk(p, s) && ParentsOk(p, s) && AllClosed(p, s)
  }

  /** Between two iterations of the outer loop. */
  ghost predicate Between(p: Problem, s: State)
  {
    Core(p, s) && s.visited == s.dist.Keys
  }

  /** While the edges of `u` are being relaxed. */
  ghost predicate Expanding(p: Problem, s: State, u: nat)
  {
    Core(p, s) && u !in s.visited && s.dist.Keys == s.visited + {u} && u in s.dist && s.dist[u] == s.last
  }

  function Init(p: Problem): State
  {
    State({}, map[], map[], [Entry(p.startScore, p.start)], map[], map[], map[], 0, 0)
  }

  lemma InitBetween(p: Problem)
    requires p.start < p.n && EdgesWithin(p.edges, p.n)
    ensures Between(p, Init(p))
  {
  }

  // ---- popping an entry of a visited node

  lemma PopSkipBetween(p: Problem, s: State, k: nat)
    requires Between(p, s) && k < |s.heap| && s.heap[k].node in s.visited
    ensures Between(p, s.(heap := Remove(s.heap, k)))
  {
    RemoveFacts(s.heap, k);
    PopSkipHeap(p, s, k);
    PopSkipClosed(p, s, k);
  }

  lemma PopSkipHeap(p: Problem, s: State, k: nat)
    requires HeapOk(p, s) && StartOk(p, s) && Shape(p, s) && k < |s.heap| && s.heap[k].node in s.dist
    ensures HeapOk(p, s.(heap := Remove(s.heap, k)))
    ensures StartOk(p, s.(heap := Remove(s.heap, k)))
    ensures Shape(p, s.(heap := Remove(s.heap, k)))
  {
    RemoveFacts(s.heap, k);
  }

  lemma PopSkipClosed(p: Problem, s: State, k: nat)
    requires AllClosed(p, s) && k < |s.heap|
    ensures AllClosed(p, s.(heap := Remove(s.heap, k)))
  {
    var s' := s.(heap := Remove(s.heap, k));
    forall u | u in s'.visited
      ensures u in s'.dist && ClosedFrom(p, s', u, 0)
    {
      assert ClosedFrom(p, s, u, 0);
      forall j | 0 <= j < |p.edges| && p.edges[j].source == u
        ensures Closed(p, s', u, j)
      {
        assert Closed(p, s, u, j);
      }
    }
  }

  // ---- popping an entry of an unvisited node: it is settled

  function Settle(s: State, k: nat): State
    requires k < |s.heap|
  {
    var e := s.heap[k];
    s.(heap := Remove(s.heap, k), dist := s.dist[e.node := e.score],
       pos := s.pos[e.node := s.settled], last := e.score, settled := s.settled + 1)
  }

  /** Entry `k` has a least score, its node is unsettled, and it is either the
      start entry of the first pop or carries its node's best score. */
  ghost predicate PopsBest(p: Problem, s: State, k: nat)
  {
    k < |s.heap| && s.heap[k].node !in s.dist
    && (forall i :: 0 <= i < |s.heap| ==> s.heap[k].score <= s.heap[i].score)
    && ((p.start !in s.dist && s.heap[k] == Entry(p.startScore, p.start) && s.heap == [s.heap[k]])
        || (p.start in s.dist && s.heap[k].node != p.start && s.heap[k].node in s.scores
            && s.heap[k].score == s.scores[s.heap[k].node]))
  }

  /** The popped entry of an unsettled node carries its best score. */
  lemma SettleScore(p: Problem, s: State, k: nat)
    requires HeapOk(p, s) && StartOk(p, s)
    requires k < |s.heap| && s.heap[k].node !in s.dist
    requires forall i :: 0 <= i < |s.heap| ==> s.heap[k].score <= s.heap[i].score
    ensures PopsBest(p, s, k)
  {
    var e := s.heap[k];
    if p.start in s.dist {
      assert e in s.heap;
      assert e.node in s.scores && e.score >= s.scores[e.node];
      assert Entry(s.scores[e.node], e.node) in s.heap;
      var i :| 0 <= i < |s.heap| && s.heap[i] == Entry(s.scores[e.node], e.node);
      assert s.heap[k].score <= s.heap[i].score;
    }
  }

  lemma SettleExpanding(p: Problem, s: State, k: nat)
    requires Between(p, s) && k < |s.heap| && s.heap[k].node !in s.visited
    requires forall i :: 0 <= i < |s.heap| ==> s.heap[k].score <= s.heap[i].score
    ensures Expanding(p, Settle(s, k), s.heap[k].node)
  {
    SettleScore(p, s, k);
    SettleShape(p, s, k);
    SettleHeap(p, s, k);
    assert s.heap[k] in s.heap;
    SettleSettled(p, s, k);
    SettleParents(p, s, k);
    SettleClosed(p, s, k);
  }

  lemma SettleShape(p: Problem, s: State, k: nat)
    requires Shape(p, s) && StartOk(p, s) && PopsBest(p, s, k)
    ensures Shape(p, Settle(s, k)) && StartOk(p, Settle(s, k))
    ensures Settle(s, k).dist.Keys == s.dist.Keys + {s.heap[k].node}
  {
    SettleShapeOnly(p, s, k);
    SettleStart(p, s, k);
  }

  lemma SettleShapeOnly(p: Problem, s: State, k: nat)
    requires Shape(p, s) && k < |s.heap|
    ensures Shape(p, Settle(s, k))
    ensures Settle(s, k).dist.Keys == s.dist.Keys + {s.heap[k].node}
  {
    assert s.heap[k] in s.heap;
    RemovedNodes(p, s.heap, k);
  }

  /** Removing an entry keeps every node in range. */
  lemma RemovedNodes(p: Problem, h: seq<Entry>, k: nat)
    requires k < |h| && forall e :: e in h ==> e.node < p.n
    ensures forall e :: e in Remove(h, k) ==> e.node < p.n
  {
    RemoveFacts(h, k);
  }

  lemma SettleStart(p: Problem, s: State, k: nat)
    requires StartOk(p, s) && PopsBest(p, s, k)
    ensures StartOk(p, Settle(s, k))
  {
    var s' := Settle(s, k);
    if p.start !in s.dist {
      assert s'.heap == [];
    }
  }

  lemma SettleHeap(p: Problem, s: State, k: nat)
    requires HeapOk(p, s) && PopsBest(p, s, k)
    ensures HeapOk(p, Settle(s, k))
  {
    RemoveFacts(s.heap, k);
    var s' := Settle(s, k);
    forall f | f in s'.heap
      ensures f.score >= s'.last
    {
      var i :| 0 <= i < |s.heap| && s.heap[i] == f;
    }
  }

  lemma SettleSettled(p: Problem, s: State, k: nat)
    requires Shape(p, s) && SettledOk(p, s) && ParentsOk(p, s)
    requires (forall e :: e in s.heap ==> e.score >= s.last)
    requires PopsBest(p, s, k)
    ensures SettledOk(p, Settle(s, k))
  {
    assert s.heap[k] in s.heap;
    PoppedAbove(p, s, k);
    SettleBounds(p, s, k);
    SettleScores(p, s, k);
    SettleBelow(p, s, k);
  }

  /** The popped entry is no earlier than the start minute. */
  lemma PoppedAbove(p: Problem, s: State, k: nat)
    requires Shape(p, s) && DistBounds(p, s) && ParentsOk(p, s) && PopsBest(p, s, k)
    ensures s.heap[k].score >= p.startScore
  {
    var u := s.heap[k].node;
    if p.start in s.dist {
      assert s.via[u] < |p.edges|;
      assert p.startScore <= s.dist[s.parents[u]];
    }
  }

  lemma SettleBounds(p: Problem, s: State, k: nat)
    requires DistBounds(p, s) && k < |s.heap|
    requires s.heap[k].score >= s.last && s.heap[k].score >= p.startScore
    ensures DistBounds(p, Settle(s, k))
  {
  }

  lemma SettleScores(p: Problem, s: State, k: nat)
    requires DistScores(p, s) && PopsBest(p, s, k)
    ensures DistScores(p, Settle(s, k))
  {
  }

  lemma SettleBelow(p: Problem, s: State, k: nat)
    requires s.pos.Keys == s.dist.Keys && PosBelow(s) && k < |s.heap| && s.heap[k].node !in s.dist
    ensures PosBelow(Settle(s, k))
  {
  }

  lemma SettleParents(p: Problem, s: State, k: nat)
    requires Shape(p, s) && PosBelow(s) && ParentsOk(p, s) && k < |s.heap| && s.heap[k].node !in s.dist
    ensures ParentsOk(p, Settle(s, k))
  {
    var s' := Settle(s, k);
    var u := s.heap[k].node;
    assert s'.scores == s.scores && s'.via == s.via && s'.parents == s.parents;
    forall v | v in s'.scores
      ensures s'.scores[v] == Arrival(p.edges[s'.via[v]].weight, s'.dist[s'.parents[v]])
      ensures v != p.start && v in s'.pos ==> s'.pos[s'.parents[v]] < s'.pos[v]
    {
      assert s.via[v] < |p.edges|;
      var q := s.parents[v];
      assert q in s.pos && q != u;
      assert s'.pos[q] == s.pos[q];
      if v == u {
        assert s'.pos[v] == s.settled;
      } else if v in s'.pos {
        assert s'.pos[v] == s.pos[v];
      }
    }
  }

  lemma SettleClosed(p: Problem, s: State, k: nat)
    requires AllClosed(p, s) && StartOk(p, s) && PopsBest(p, s, k)
    ensures AllClosed(p, Settle(s, k))
  {
    var s' := Settle(s, k);
    forall x | x in s'.visited
      ensures x in s'.dist && ClosedFrom(p, s', x, 0)
    {
      assert ClosedFrom(p, s, x, 0);
      forall j | 0 <= j < |p.edges| && p.edges[j].source == x
        ensures Closed(p, s', x, j)
      {
        assert Closed(p, s, x, j);
      }
    }
  }

  // ---- relaxing one edge

  /** The state after relaxing edge `j` out of `u` without a panic. */
  function Relaxed(p: Problem, s: State, u: nat, j: nat): State
    requires u in s.dist && j < |p.edges|
  {
    var v := p.edges[j].target;
    var a := Arrival(p.edges[j].weight, s.dist[u]);
    if v in s.scores && a >= s.scores[v] then
      s.(heap := s.heap + [Entry(s.scores[v], v)])
    else
      s.(scores := s.scores[v := a], parents := s.parents[v := u], via := s.via[v := j],
         heap := s.heap + [Entry(a, v)])
  }

  /** Edge `j` leaves the node `u` being expanded, towards an unvisited node. */
  ghost predicate RelaxesAt(p: Problem, s: State, u: nat, j: nat)
  {
    u in s.dist && s.dist.Keys == s.visited + {u} && u !in s.visited && s.dist[u] == s.last
    && j < |p.edges| && p.edges[j].source == u && p.edges[j].target !in s.visited
    && (p.edges[j].target in s.dist ==> p.edges[j].target == u)
  }

  lemma RelaxedExpanding(p: Problem, s: State, u: nat, j: nat)
    requires Expanding(p, s, u)
    requires j < |p.edges| && p.edges[j].source == u && p.edges[j].target !in s.visited
    requires ClosedFrom(p, s, u, j + 1)
    ensures Expanding(p, Relaxed(p, s, u, j), u)
    ensures ClosedFrom(p, Relaxed(p, s, u, j), u, j)
  {
    assert RelaxesAt(p, s, u, j);
    RelaxFrame(p, s, u, j);
    RelaxHeap(p, s, u, j);
    RelaxRest(p, s, u, j);
    RelaxClosedHere(p, s, u, j);
  }

  lemma RelaxHeap(p: Problem, s: State, u: nat, j: nat)
    requires Core(p, s) && RelaxesAt(p, s, u, j)
    ensures Shape(p, Relaxed(p, s, u, j)) && StartOk(p, Relaxed(p, s, u, j))
    ensures HeapOk(p, Relaxed(p, s, u, j))
  {
    RelaxShape(p, s, u, j);
    if p.edges[j].target in s.scores {
      ScoreAbove(p, s, u, p.edges[j].target);
    }
    RelaxAbove(p, s, u, j);
    RelaxCovered(p, s, u, j);
    RelaxQueued(p, s, u, j);
  }

  lemma RelaxRest(p: Problem, s: State, u: nat, j: nat)
    requires Core(p, s) && RelaxesAt(p, s, u, j)
    ensures SettledOk(p, Relaxed(p, s, u, j)) && ParentsOk(p, Relaxed(p, s, u, j))
    ensures AllClosed(p, Relaxed(p, s, u, j))
  {
    RelaxSettled(p, s, u, j);
    RelaxParents(p, s, u, j);
    RelaxClosed(p, s, u, j);
  }

  lemma RelaxFrame(p: Problem, s: State, u: nat, j: nat)
    requires u in s.dist && j < |p.edges|
    ensures var s' := Relaxed(p, s, u, j);
            s'.dist == s.dist && s'.pos == s.pos && s'.visited == s.visited && s'.last == s.last
  {
  }

  lemma RelaxShape(p: Problem, s: State, u: nat, j: nat)
    requires Shape(p, s) && StartOk(p, s) && RelaxesAt(p, s, u, j)
    ensures Shape(p, Relaxed(p, s, u, j)) && StartOk(p, Relaxed(p, s, u, j))
  {
    var v := p.edges[j].target;
    assert p.edges[j] in p.edges;
    assert p.start in s.dist;
  }

  lemma RelaxAbove(p: Problem, s: State, u: nat, j: nat)
    requires HeapAbove(s) && u in s.dist && s.dist[u] == s.last && j < |p.edges|
    requires p.edges[j].target in s.scores ==> s.scores[p.edges[j].target] >= s.last
    ensures HeapAbove(Relaxed(p, s, u, j))
  {
    var s' := Relaxed(p, s, u, j);
    var e := s'.heap[|s'.heap| - 1];
    assert s'.heap == s.heap + [e] && s'.last == s.last;
    assert e.score >= s.last;
    forall f | f in s'.heap
      ensures f.score >= s'.last
    {
      if f != e {
        assert f in s.heap;
      }
    }
  }

  /** The best score of a node not settled before `u` is no earlier than the latest expansion. */
  lemma ScoreAbove(p: Problem, s: State, u: nat, v: nat)
    requires Shape(p, s) && HeapAbove(s) && ScoresQueued(s) && DistScores(p, s) && DistBounds(p, s)
    requires ParentsOk(p, s) && StartOk(p, s)
    requires u in s.dist && s.dist[u] == s.last && v in s.scores && (v in s.dist ==> v == u)
    ensures s.scores[v] >= s.last
  {
    if v !in s.dist {
      assert Entry(s.scores[v], v) in s.heap;
    } else if v != p.start {
      assert s.scores[v] == s.dist[v];
    } else {
      assert s.via[v] < |p.edges|;
      assert s.scores[v] >= s.dist[s.parents[v]] >= p.startScore;
    }
  }

  lemma RelaxCovered(p: Problem, s: State, u: nat, j: nat)
    requires HeapCovered(p, s) && RelaxesAt(p, s, u, j)
    ensures HeapCovered(p, Relaxed(p, s, u, j))
  {
  }

  lemma RelaxQueued(p: Problem, s: State, u: nat, j: nat)
    requires ScoresQueued(s) && RelaxesAt(p, s, u, j)
    ensures ScoresQueued(Relaxed(p, s, u, j))
  {
  }

  lemma RelaxSettled(p: Problem, s: State, u: nat, j: nat)
    requires SettledOk(p, s) && RelaxesAt(p, s, u, j)
    ensures SettledOk(p, Relaxed(p, s, u, j))
  {
  }

  lemma RelaxParents(p: Problem, s: State, u: nat, j: nat)
    requires Shape(p, s) && SettledOk(p, s) && ParentsOk(p, s) && RelaxesAt(p, s, u, j)
    ensures ParentsOk(p, Relaxed(p, s, u, j))
  {
    var s' := Relaxed(p, s, u, j);
    forall x | x in s'.scores
      ensures x in s'.parents && x in s'.via && s'.via[x] < |p.edges|
      ensures p.edges[s'.via[x]].target == x && p.edges[s'.via[x]].source == s'.parents[x]
      ensures s'.parents[x] in s'.dist && s'.parents[x] in s'.pos
      ensures s'.scores[x] == Arrival(p.edges[s'.via[x]].weight, s'.dist[s'.parents[x]])
      ensures x != p.start && x in s'.pos ==> s'.pos[s'.parents[x]] < s'.pos[x]
    {
      if x != p.edges[j].target || s'.parents == s.parents {
        assert s.via[x] < |p.edges|;
      }
    }
  }

  /** Lowering scores keeps an edge relaxed. */
  lemma ClosedLower(p: Problem, s: State, s': State, x: nat, i: nat)
    requires x in s.dist && i < |p.edges| && s'.dist == s.dist
    requires forall t :: t in s.scores ==> t in s'.scores && s'.scores[t] <= s.scores[t]
    requires Closed(p, s, x, i)
    ensures Closed(p, s', x, i)
  {
  }

  lemma RelaxClosed(p: Problem, s: State, u: nat, j: nat)
    requires AllClosed(p, s) && u in s.dist && j < |p.edges|
    ensures AllClosed(p, Relaxed(p, s, u, j))
  {
    var s' := Relaxed(p, s, u, j);
    forall x | x in s'.visited
      ensures x in s'.dist && ClosedFrom(p, s', x, 0)
    {
      assert ClosedFrom(p, s, x, 0);
      forall i | 0 <= i < |p.edges| && p.edges[i].source == x
        ensures Closed(p, s', x, i)
      {
        assert Closed(p, s, x, i);
        ClosedLower(p, s, s', x, i);
      }
    }
  }

  lemma RelaxClosedHere(p: Problem, s: State, u: nat, j: nat)
    requires u in s.dist && j < |p.edges| && p.edges[j].source == u
    requires p.edges[j].target in s.dist ==> p.edges[j].target == u
    requires ClosedFrom(p, s, u, j + 1)
    ensures ClosedFrom(p, Relaxed(p, s, u, j), u, j)
  {
    var s' := Relaxed(p, s, u, j);
    forall i | j <= i < |p.edges| && p.edges[i].source == u
      ensures Closed(p, s', u, i)
    {
      if i > j {
        assert Closed(p, s, u, i);
        ClosedLower(p, s, s', u, i);
      }
    }
  }

  /** An edge to a visited target needs no relaxation. */
  lemma SkipVisitedTarget(p: Problem, s: State, u: nat, j: nat)
    requires Expanding(p, s, u)
    requires j < |p.edges| && (p.edges[j].source != u || p.edges[j].target in s.visited)
    requires ClosedFrom(p, s, u, j + 1)
    ensures ClosedFrom(p, s, u, j)
  {
    if p.edges[j].source == u {
      SkipOne(p, s, u, j);
    }
  }

  lemma SkipOne(p: Problem, s: State, u: nat, j: nat)
    requires SettledOk(p, s) && s.visited <= s.dist.Keys && u in s.dist && s.dist[u] == s.last
    requires u !in s.visited
    requires j < |p.edges| && p.edges[j].source == u && p.edges[j].target in s.visited
    requires ClosedFrom(p, s, u, j + 1)
    ensures ClosedFrom(p, s, u, j)
  {
    var v := p.edges[j].target;
    assert s.dist[v] <= s.last;
    assert Closed(p, s, u, j);
  }

  // ---- marking the expanded node visited

  lemma FinishBetween(p: Problem, s: State, u: nat)
    requires Expanding(p, s, u) && ClosedFrom(p, s, u, 0)
    ensures Between(p, s.(visited := s.visited + {u}))
  {
    FinishParts(p, s, u);
    FinishClosed(p, s, u);
  }

  lemma FinishParts(p: Problem, s: State, u: nat)
    requires Expanding(p, s, u)
    ensures var s' := s.(visited := s.visited + {u});
            Shape(p, s') && StartOk(p, s') && HeapOk(p, s') && SettledOk(p, s') && ParentsOk(p, s')
  {
    FinishShape(p, s, u);
    FinishKeeps(p, s, s.visited + {u});
  }

  lemma FinishShape(p: Problem, s: State, u: nat)
    requires Shape(p, s) && StartOk(p, s) && u in s.dist && s.dist.Keys == s.visited + {u}
    ensures Shape(p, s.(visited := s.visited + {u})) && StartOk(p, s.(visited := s.visited + {u}))
  {
  }

  /** The heap, score and parent invariants do not read the visited set. */
  lemma FinishKeeps(p: Problem, s: State, visited: set<nat>)
    requires HeapOk(p, s) && SettledOk(p, s) && ParentsOk(p, s)
    ensures HeapOk(p, s.(visited := visited)) && SettledOk(p, s.(visited := visited))
    ensures ParentsOk(p, s.(visited := visited))
  {
    KeepsHeap(p, s, visited);
    KeepsSettled(p, s, visited);
    KeepsParents(p, s, visited);
  }

  lemma KeepsHeap(p: Problem, s: State, visited: set<nat>)
    requires HeapOk(p, s)
    ensures HeapOk(p, s.(visited := visited))
  {
  }

  lemma KeepsSettled(p: Problem, s: State, visited: set<nat>)
    requires SettledOk(p, s)
    ensures SettledOk(p, s.(visited := visited))
  {
  }

  lemma KeepsParents(p: Problem, s: State, visited: set<nat>)
    requires ParentsOk(p, s)
    ensures ParentsOk(p, s.(visited := visited))
  {
    var s' := s.(visited := visited);
    forall v | v in s'.scores
      ensures v in s'.via && s'.via[v] < |p.edges| && s'.parents[v] in s'.dist
      ensures s'.scores[v] == Arrival(p.edges[s'.via[v]].weight, s'.dist[s'.parents[v]])
    {
      assert s.via[v] < |p.edges|;
    }
  }

  lemma FinishClosed(p: Problem, s: State, u: nat)
    requires AllClosed(p, s) && u in s.dist && ClosedFrom(p, s, u, 0)
    ensures AllClosed(p, s.(visited := s.visited + {u}))
  {
    var s' := s.(visited := s.visited + {u});
    forall x | x in s'.visited
      ensures x in s'.dist && ClosedFrom(p, s', x, 0)
    {
      assert ClosedFrom(p, s, x, 0);
      forall i | 0 <= i < |p.edges| && p.edges[i].source == x
        ensures Closed(p, s', x, i)
      {
        assert Closed(p, s, x, i);
      }
    }
  }

  // ---- the finished search

  /** When the heap is empty, the settled times are closed under every edge and
      the parents form a search tree. */
  lemma Finished(p: Problem, s: State)
    requires Between(p, s) && s.heap == []
    ensures p.start in s.dist && forall v :: v in s.dist ==> v < p.n
    ensures ClosedUnder(p.edges, s.dist)
    ensures SearchTree(p.edges, p.start, p.startScore, s.dist, s.parents, s.via, s.pos)
    ensures s.scores.Keys <= s.dist.Keys
    ensures forall v :: v in s.dist && v != p.start ==> v in s.scores && s.scores[v] == s.dist[v]
    ensures p.start in s.parents ==> s.parents[p.start] == p.start
    ensures p.start in s.parents <==> SelfLoop(p.edges, p.start)
    ensures forall v :: v in s.scores ==> s.scores[v] >= p.startScore
  {
    FinishedScores(p, s);
    FinishedClosedUnder(p, s);
    FinishedTree(p, s);
    FinishedSelfLoop(p, s);
  }

  /** The start has a parent exactly when a self-loop at the start was relaxed. */
  lemma FinishedSelfLoop(p: Problem, s: State)
    requires s.scores.Keys == s.parents.Keys && s.scores.Keys == s.via.Keys
    requires ParentsLinked(p, s) && StartOk(p, s) && p.start in s.dist
    requires AllClosed(p, s) && s.visited == s.dist.Keys
    ensures p.start in s.parents <==> SelfLoop(p.edges, p.start)
  {
    if p.start in s.parents {
      assert s.via[p.start] < |p.edges|;
    }
    if SelfLoop(p.edges, p.start) {
      var j :| 0 <= j < |p.edges| && p.edges[j].source == p.start && p.edges[j].target == p.start;
      assert ClosedFrom(p, s, p.start, 0);
      assert Closed(p, s, p.start, j);
    }
  }

  lemma FinishedClosedUnder(p: Problem, s: State)
    requires AllClosed(p, s) && s.visited == s.dist.Keys && s.scores.Keys <= s.dist.Keys
    ensures ClosedUnder(p.edges, s.dist)
  {
    forall j | 0 <= j < |p.edges| && p.edges[j].source in s.dist
      ensures p.edges[j].target in s.dist
      ensures s.dist[p.edges[j].target] <= Arrival(p.edges[j].weight, s.dist[p.edges[j].source])
    {
      var u := p.edges[j].source;
      assert ClosedFrom(p, s, u, 0);
      assert Closed(p, s, u, j);
    }
  }

  lemma FinishedTree(p: Problem, s: State)
    requires Shape(p, s) && StartOk(p, s) && SettledOk(p, s) && ParentsOk(p, s) && s.heap == []
    ensures p.start in s.dist
    ensures SearchTree(p.edges, p.start, p.startScore, s.dist, s.parents, s.via, s.pos)
  {
    forall v | v in s.dist && v != p.start
      ensures v in s.parents && v in s.via && s.parents[v] in s.dist && s.pos[s.parents[v]] < s.pos[v]
      ensures s.via[v] < |p.edges| && p.edges[s.via[v]].source == s.parents[v] && p.edges[s.via[v]].target == v
      ensures s.dist[v] == Arrival(p.edges[s.via[v]].weight, s.dist[s.parents[v]])
    {
      assert s.via[v] < |p.edges|;
    }
  }

  lemma FinishedScores(p: Problem, s: State)
    requires Shape(p, s) && HeapOk(p, s) && SettledOk(p, s) && ParentsOk(p, s) && s.heap == []
    ensures s.scores.Keys <= s.dist.Keys
    ensures forall v :: v in s.scores ==> s.scores[v] >= p.startScore
  {
    FinishedQueued(s);
    ScoresAbove(p, s);
  }

  lemma FinishedQueued(s: State)
    requires ScoresQueued(s) && s.heap == []
    ensures s.scores.Keys <= s.dist.Keys
  {
  }

  /** Every best score is no earlier than the start minute. */
  lemma ScoresAbove(p: Problem, s: State)
    requires s.scores.Keys == s.via.Keys && DistBounds(p, s) && ParentsOk(p, s)
    ensures forall v :: v in s.scores ==> s.scores[v] >= p.startScore
  {
    forall v | v in s.scores
      ensures s.scores[v] >= p.startScore
    {
      assert s.via[v] < |p.edges|;
      assert s.dist[s.parents[v]] >= p.startScore;
    }
  }

  // ------------------------------------------------------------ the loop

  /** One pass of the inner `for edge in edges` body for edge `j` out of `u`, popped
      with score `score`: the wait lookup panics past the end of a timetable and the
      `u16` sum panics above 65535; otherwise the target's best score and parent
      change together, only on a strict improvement, and the target is queued with
      its (possibly unchanged) best score. */
  method RelaxEdge(p: Problem, s: State, u: nat, j: nat, score: nat) returns (r: Result<State, Panic>)
    requires Expanding(p, s, u) && score == s.dist[u]
    requires j < |p.edges| && p.edges[j].source == u && p.edges[j].target !in s.visited
    requires ClosedFrom(p, s, u, j + 1)
    ensures r.Err? <==> GetMinutesToDeparture(p.edges[j].weight, score).Err?
                        || Arrival(p.edges[j].weight, score) > U16Max
    ensures r.Err? ==> r.error == if GetMinutesToDeparture(p.edges[j].weight, score).Err?
                                 then IndexOutOfBounds else AddWithOverflow
    ensures r.Ok? ==> r.value == Relaxed(p, s, u, j)
    ensures r.Ok? ==> Expanding(p, r.value, u) && ClosedFrom(p, r.value, u, j)
  {
    var edge := p.edges[j];
    var next := edge.target;
    var timeToDepart := GetMinutesToDeparture(edge.weight, score);
    if timeToDepart.Err? {
      return Err(timeToDepart.error);
    }
    var nextScore := timeToDepart.value + edge.weight.durationMinutes + score;
    assert nextScore == Arrival(edge.weight, score);
    if nextScore > U16Max {
      return Err(AddWithOverflow);
    }
    var t := s;
    if next in t.scores && nextScore >= t.scores[next] {
      nextScore := t.scores[next];
    } else {
      t := t.(scores := t.scores[next := nextScore], parents := t.parents[next := u], via := t.via[next := j]);
    }
    t := t.(heap := t.heap + [Entry(nextScore, next)]);
    assert t == Relaxed(p, s, u, j);
    RelaxedExpanding(p, s, u, j);
    return Ok(t);
  }

  /** The inner loop over the edges of `u`, newest first as `Graph::edges` yields
      them. */
  method ExpandNode(p: Problem, s: State, u: nat, score: nat) returns (r: Result<State, Panic>)
    requires Expanding(p, s, u) && score == s.dist[u]
    ensures r.Ok? ==> Expanding(p, r.value, u) && ClosedFrom(p, r.value, u, 0)
    ensures r.Ok? ==> r.value.visited == s.visited && r.value.dist == s.dist && r.value.settled == s.settled
    ensures r.Err? ==> r.error == IndexOutOfBounds || r.error == AddWithOverflow
  {
    var t := s;
    var j: nat := |p.edges|;
    while j > 0
      invariant j <= |p.edges|
      invariant Expanding(p, t, u) && ClosedFrom(p, t, u, j)
      invariant t.visited == s.visited && t.dist == s.dist && t.settled == s.settled
    {
      j := j - 1;
      var step := VisitEdge(p, t, u, j, score);
      if step.Err? {
        return Err(step.error);
      }
      t := step.value;
    }
    return Ok(t);
  }

  /** One iteration of the inner loop: an edge of another node, or into a visited
      node, leaves the state as it is; any other edge is relaxed. */
  method VisitEdge(p: Problem, t: State, u: nat, j: nat, score: nat) returns (r: Result<State, Panic>)
    requires Expanding(p, t, u) && score == t.dist[u]
    requires j < |p.edges| && ClosedFrom(p, t, u, j + 1)
    ensures r.Ok? ==> Expanding(p, r.value, u) && ClosedFrom(p, r.value, u, j)
    ensures r.Ok? ==> r.value.visited == t.visited && r.value.dist == t.dist && r.value.settled == t.settled
    ensures r.Ok? && (p.edges[j].source != u || p.edges[j].target in t.visited) ==> r.value == t
    ensures r.Err? ==> r.error == IndexOutOfBounds || r.error == AddWithOverflow
  {
    if p.edges[j].source != u || p.edges[j].target in t.visited {
      SkipVisitedTarget(p, t, u, j);
      return Ok(t);
    }
    r := RelaxEdge(p, t, u, j, score);
    RelaxFrame(p, t, u, j);
  }

  /** What the search leaves behind: every edge out of a settled node has been
      relaxed, the parents form a search tree, and every best score belongs to a
      settled node and is no earlier than the start minute. */
  ghost predicate Searched(p: Problem, s: State)
  {
    p.start in s.dist && s.dist.Keys == s.visited
    && (forall v :: v in s.dist ==> v < p.n)
    && ClosedUnder(p.edges, s.dist)
    && SearchTree(p.edges, p.start, p.startScore, s.dist, s.parents, s.via, s.pos)
    && s.scores.Keys == s.parents.Keys && s.scores.Keys <= s.dist.Keys
    && (forall v :: v in s.dist && v != p.start ==> v in s.scores && s.scores[v] == s.dist[v])
    && (p.start in s.parents ==> s.parents[p.start] == p.start)
    && (p.start in s.parents <==> SelfLoop(p.edges, p.start))
    && (forall v :: v in s.scores ==> s.scores[v] >= p.startScore)
  }

  /** Some edge leads from `v` back to `v`. */
  predicate SelfLoop(edges: seq<Edge>, v: nat)
  {
    exists j :: 0 <= j < |edges| && edges[j].source == v && edges[j].target == v
  }

  /** The `while let Some(..) = visit_next.pop()` loop of `time_dependent_dijkstra`,
      from the heap holding only the start entry until it is empty. */
  method Explore(p: Problem) returns (r: Result<State, Panic>)
    requires p.start < p.n && EdgesWithin(p.edges, p.n)
    ensures r.Ok? ==> Searched(p, r.value) && r.value.heap == []
    ensures r.Err? ==> r.error == IndexOutOfBounds || r.error == AddWithOverflow
  {
    var s := Init(p);
    InitBetween(p);
    while s.heap != []
      invariant Between(p, s)
      invariant |s.visited| <= p.n
      decreases p.n - |s.visited|, |s.heap|
    {
      var next := PopNext(p, s);
      if next.Err? {
        return Err(next.error);
      }
      s := next.value;
    }
    Finished(p, s);
    return Ok(s);
  }

  /** `BinaryHeap::pop` on `MinScored` entries: some position holding a least
      score, whichever one among ties. */
  method PickLeast(h: seq<Entry>) returns (k: nat)
    requires |h| > 0
    ensures k < |h|
    ensures forall i :: 0 <= i < |h| ==> h[k].score <= h[i].score
  {
    var least := LeastExists(h);
    k :| k < |h| && forall i :: 0 <= i < |h| ==> h[k].score <= h[i].score;
  }

  /** One iteration of the outer loop: pop an entry with the least score; skip it
      if its node is visited, otherwise expand the node and mark it visited. */
  method PopNext(p: Problem, s: State) returns (r: Result<State, Panic>)
    requires Between(p, s) && s.heap != []
    ensures r.Ok? ==> Between(p, r.value) && |r.value.visited| <= p.n
    ensures r.Ok? ==> (r.value.visited == s.visited && |r.value.heap| < |s.heap|)
                      || (s.visited < r.value.visited && |s.visited| < |r.value.visited|)
    ensures r.Err? ==> r.error == IndexOutOfBounds || r.error == AddWithOverflow
  {
    var k := PickLeast(s.heap);
    var e := s.heap[k];
    if e.node in s.visited {
      PopSkipBetween(p, s, k);
      var t := s.(heap := Remove(s.heap, k));
      VisitedWithin(p, t);
      return Ok(t);
    }
    SettleExpanding(p, s, k);
    var expanded := ExpandNode(p, Settle(s, k), e.node, e.score);
    if expanded.Err? {
      return Err(expanded.error);
    }
    var t := expanded.value;
    FinishBetween(p, t, e.node);
    t := t.(visited := t.visited + {e.node});
    VisitedWithin(p, t);
    return Ok(t);
  }

  /** Visited nodes are node indices, so there are at most `n` of them. */
  lemma VisitedWithin(p: Problem, s: State)
    requires Shape(p, s)
    ensures |s.visited| <= p.n
  {
    forall v | v in s.visited
      ensures v < p.n
    {
      assert v in s.dist;
    }
    SubsetOfRange(s.visited, p.n);
  }

  // ------------------------------------------------------------ reading the result

  /** Over FIFO edges the search finds exactly the nodes some journey from the start
      reaches, and for each the earliest arrival over all such journeys. */
  lemma SearchedIsEarliest(p: Problem, s: State, v: nat)
    requires Searched(p, s) && AllFifo(p.edges)
    ensures v in s.dist <==> exists w :: IsWalk(p.edges, p.start, w) && WalkEnd(p.edges, p.start, w) == v
    ensures v in s.dist ==>
              exists w :: IsWalk(p.edges, p.start, w) && WalkEnd(p.edges, p.start, w) == v
                          && WalkArrival(p.edges, p.startScore, w) == s.dist[v]
    ensures forall w :: IsWalk(p.edges, p.start, w) && WalkEnd(p.edges, p.start, w) == v ==>
              v in s.dist && s.dist[v] <= WalkArrival(p.edges, p.startScore, w)
  {
    forall w | IsWalk(p.edges, p.start, w) && WalkEnd(p.edges, p.start, w) == v
      ensures v in s.dist && s.dist[v] <= WalkArrival(p.edges, p.startScore, w)
    {
      NoEarlierJourney(p.edges, s.dist, p.start, p.startScore, w);
    }
    if v in s.dist {
      TreeWalkArrives(p.edges, p.start, p.startScore, s.dist, s.parents, s.via, s.pos, v);
      var w := TreeWalk(p.edges, p.start, p.startScore, s.dist, s.parents, s.via, s.pos, v);
      assert IsWalk(p.edges, p.start, w) && WalkEnd(p.edges, p.start, w) == v;
    }
  }

  /** `w` is the parent chain from `child`: each next node is the parent of the one before. */
  predicate ParentChain(parents: map<nat, nat>, child: nat, w: seq<nat>)
  {
    |w| >= 1 && w[0] == child
    && forall i :: 0 <= i < |w| - 1 ==> w[i] in parents && parents[w[i]] == w[i + 1]
  }

  /** What `get_path` does: either it returns, or it keeps pushing a node that is
      its own parent and never returns (the chain up to that node is kept). */
  datatype PathWalk = Returns(path: seq<nat>) | Endless(prefix: seq<nat>)

  /** `get_path`: start with the child and push parents until a node has none. The
      ghost `rank` decreases from every node to a parent other than itself, which
      is what makes the loop stop unless it meets a node that is its own parent. */
  method GetPath(parents: map<nat, nat>, child: nat, ghost rank: map<nat, nat>) returns (r: PathWalk)
    requires forall v :: v in parents && parents[v] != v ==> v in rank && parents[v] in rank && rank[parents[v]] < rank[v]
    ensures r.Returns? ==> ParentChain(parents, child, r.path) && r.path[|r.path| - 1] !in parents
    ensures r.Endless? ==> ParentChain(parents, child, r.prefix)
                           && r.prefix[|r.prefix| - 1] in parents
                           && parents[r.prefix[|r.prefix| - 1]] == r.prefix[|r.prefix| - 1]
  {
    var path := [child];
    while path[|path| - 1] in parents
      invariant ParentChain(parents, child, path)
      decreases if path[|path| - 1] in rank then rank[path[|path| - 1]] else 0
    {
      var last := path[|path| - 1];
      var parent := parents[last];
      if parent == last {
        return Endless(path);
      }
      path := path + [parent];
    }
    return Returns(path);
  }

  /** On a finished search every parent chain from a scored node ends at the start:
      it returns there when the start has no parent, and never returns otherwise. */
  lemma ChainEndsAtStart(p: Problem, s: State, w: seq<nat>)
    requires Searched(p, s) && |w| >= 1 && w[0] in s.scores && ParentChain(s.parents, w[0], w)
    requires w[|w| - 1] !in s.parents || s.parents[w[|w| - 1]] == w[|w| - 1]
    ensures w[|w| - 1] == p.start
    ensures w[|w| - 1] !in s.parents <==> p.start !in s.parents
  {
    var last := w[|w| - 1];
    if |w| > 1 {
      assert w[|w| - 2] in s.parents && s.parents[w[|w| - 2]] == last;
      assert w[|w| - 2] in s.dist;
    }
    assert last in s.dist;
  }

  /** The search's parent map meets `get_path`'s ranking requirement with the
      settling order as rank. */
  lemma SettlingOrderRanks(p: Problem, s: State)
    requires Searched(p, s)
    ensures forall v :: v in s.parents && s.parents[v] != v ==>
              v in s.pos && s.parents[v] in s.pos && s.pos[s.parents[v]] < s.pos[v]
  {
    forall v | v in s.parents && s.parents[v] != v
      ensures v in s.pos && s.parents[v] in s.pos && s.pos[s.parents[v]] < s.pos[v]
    {
      assert v in s.dist;
    }
  }

  /** Each step of a parent chain on a finished search follows a graph edge backwards,
      and the later node is settled exactly when that edge brings one there. */
  lemma ChainFollowsEdges(p: Problem, s: State, w: seq<nat>, i: nat)
    requires Searched(p, s) && |w| >= 1 && w[0] in s.scores && ParentChain(s.parents, w[0], w)
    requires i < |w| - 1 && w[i] != p.start
    ensures w[i] in s.via && s.via[w[i]] < |p.edges|
    ensures p.edges[s.via[w[i]]].source == w[i + 1] && p.edges[s.via[w[i]]].target == w[i]
    ensures w[i] in s.dist && w[i + 1] in s.dist
    ensures s.dist[w[i]] == Arrival(p.edges[s.via[w[i]]].weight, s.dist[w[i + 1]])
  {
    if i > 0 {
      assert w[i - 1] in s.parents && s.parents[w[i - 1]] == w[i];
      assert w[i - 1] in s.dist;
    }
    assert w[i] in s.dist;
  }
}
