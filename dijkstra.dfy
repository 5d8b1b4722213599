/**
 * `dijkstraVisualization` of app/components/algorithm-visualizer.tsx, without
 * its animation: a `distances` dictionary keyed by node id and a `visited`
 * set, both updated in place.  Each round visits the unvisited node with the
 * strictly smallest finite distance (the first in node order on ties) and
 * relaxes the edges leaving it; the run stops when every node is visited or
 * no unvisited node has a finite distance.  JavaScript's
 * `Number.POSITIVE_INFINITY` becomes the `Inf` case of `Dist`.
 */
module DijkstraVisualizer {
  import opened Wrappers

  /** A tentative distance: a number or positive infinity. */
  datatype Dist = Fin(value: int) | Inf

  /** JavaScript's `<` on numbers and infinity: nothing is below infinity's left side. */
  predicate Below(a: Dist, b: Dist) {
    match a
    case Inf => false
    case Fin(x) => b.Inf? || x < b.value
  }

  /** `a <= b` in the same order. */
  predicate AtMost(a: Dist, b: Dist) {
    !Below(b, a)
  }

  /** JavaScript's `+` with a finite weight: infinity absorbs it. */
  function Plus(d: Dist, w: int): (r: Dist)
    ensures r.Inf? <==> d.Inf?
    ensures d.Fin? ==> r.value - d.value == w
  {
    match d
    case Inf => Inf
    case Fin(x) => Fin(x + w)
  }

  /** A directed edge of the graph, with its weight. */
  datatype Edge = Edge(from: string, to: string, weight: int)

  /** The visualizer's fixed graph: nodes A to H. */
  const GraphNodes: seq<string> := ["A", "B", "C", "D", "E", "F", "G", "H"]

  /** The visualizer's fixed edges, in the order the relaxation loop sees them. */
  const GraphEdges: seq<Edge> := [
    Edge("A", "B", 4), Edge("A", "D", 2), Edge("B", "C", 3), Edge("B", "E", 6),
    Edge("C", "F", 1), Edge("D", "E", 5), Edge("D", "G", 4), Edge("E", "F", 2),
    Edge("E", "H", 3), Edge("F", "H", 7), Edge("G", "H", 1)
  ]

  /** The initial source node. */
  const SourceNode: string := "A"

  /** No edge has a negative weight. */
  predicate NonNegativeWeights(edges: seq<Edge>) {
    forall e :: e in edges ==> e.weight >= 0
  }

  /** Every edge starts and ends at a node with a distance. */
  predicate EdgesWithin(edges: seq<Edge>, dist: map<string, Dist>) {
    forall e :: e in edges ==> e.from in dist && e.to in dist
  }

  /** No edge leads to a node whose distance exceeds its start's distance plus its weight. */
  predicate Relaxed(edges: seq<Edge>, dist: map<string, Dist>) {
    forall e :: e in edges && e.from in dist && e.to in dist ==> AtMost(dist[e.to], Plus(dist[e.from], e.weight))
  }

  /** Every finite distance is at least 0. */
  predicate NonNegativeDistances(dist: map<string, Dist>) {
    forall n :: n in dist && dist[n].Fin? ==> dist[n].value >= 0
  }

  /** The node ids as a set. */
  function NodeSet(nodes: seq<string>): set<string> {
    set n | n in nodes
  }

  /** The graph has at most as many distinct nodes as node entries. */
  lemma {:induction false} NodeSetSize(nodes: seq<string>)
    ensures |NodeSet(nodes)| <= |nodes|
  {
    if nodes != [] {
      NodeSetSize(nodes[1..]);
      assert NodeSet(nodes) == NodeSet(nodes[1..]) + {nodes[0]};
    }
  }

  /** The fixed graph's weights are non-negative and its edges join its nodes. */
  lemma GraphIsWellFormed()
    ensures NonNegativeWeights(GraphEdges)
    ensures forall e :: e in GraphEdges ==> e.from in GraphNodes && e.to in GraphNodes
    ensures SourceNode in GraphNodes
  {
    forall e | e in GraphEdges ensures e.weight >= 0 && e.from in GraphNodes && e.to in GraphNodes {
      var i :| 0 <= i < |GraphEdges| && GraphEdges[i] == e;
    }
  }

  /** The initialisation loop: the source at 0, every other node at infinity. */
  method InitialDistances(nodes: seq<string>, source: string) returns (dist: map<string, Dist>)
    ensures forall n :: n in dist <==> n in nodes
    ensures forall n :: n in dist ==> dist[n] == if n == source then Fin(0) else Inf
  {
    dist := map[];
    for k := 0 to |nodes|
      invariant forall n :: n in dist <==> n in nodes[..k]
      invariant forall n :: n in dist ==> dist[n] == if n == source then Fin(0) else Inf
    {
      dist := dist[nodes[k] := if nodes[k] == source then Fin(0) else Inf];
    }
  }

  /** `c` is an unvisited node with a finite distance no larger than any other unvisited node's. */
  predicate Nearest(nodes: seq<string>, dist: map<string, Dist>, visited: set<string>, c: string)
    requires forall n :: n in nodes ==> n in dist
  {
    c in nodes && c !in visited && dist[c].Fin? &&
    forall n :: n in nodes && n !in visited ==> AtMost(dist[c], dist[n])
  }

  /** Every unvisited node before position `i` is strictly farther than `c`. */
  predicate FirstBefore(nodes: seq<string>, dist: map<string, Dist>, visited: set<string>, c: string, i: int)
    requires forall n :: n in nodes ==> n in dist
    requires c in dist
  {
    0 <= i < |nodes| && nodes[i] == c &&
    forall k :: 0 <= k < i && nodes[k] !in visited ==> Below(dist[c], dist[nodes[k]])
  }

  /** `c` is the first node, in node order, that the selection loop can pick: ties go to the earliest. */
  predicate FirstNearest(nodes: seq<string>, dist: map<string, Dist>, visited: set<string>, c: string)
    requires forall n :: n in nodes ==> n in dist
    requires c in dist
  {
    exists i :: 0 <= i < |nodes| && FirstBefore(nodes, dist, visited, c, i)
  }

  /**
   * The selection loop: scans the nodes in order and keeps an unvisited node
   * whose distance is strictly below the best so far, starting from infinity.
   */
  method SelectCurrent(nodes: seq<string>, dist: map<string, Dist>, visited: set<string>) returns (current: Option<string>)
    requires forall n :: n in nodes ==> n in dist
    ensures current.None? <==> forall n :: n in nodes && n !in visited ==> dist[n] == Inf
    ensures current.Some? ==> Nearest(nodes, dist, visited, current.value)
    ensures current.Some? ==> FirstNearest(nodes, dist, visited, current.value)
  {
    current := None;
    var minDistance := Inf;
    ghost var at := 0;
    for k := 0 to |nodes|
      invariant current.None? <==> minDistance == Inf
      invariant current.None? ==> forall j :: 0 <= j < k && nodes[j] !in visited ==> dist[nodes[j]] == Inf
      invariant current.Some? ==> 0 <= at < k && nodes[at] == current.value && current.value !in visited
      invariant current.Some? ==> dist[current.value] == minDistance
      invariant current.Some? ==> forall j :: 0 <= j < k && nodes[j] !in visited ==> AtMost(minDistance, dist[nodes[j]])
      invariant current.Some? ==> forall j :: 0 <= j < at && nodes[j] !in visited ==> Below(minDistance, dist[nodes[j]])
    {
      if nodes[k] !in visited && Below(dist[nodes[k]], minDistance) {
        minDistance := dist[nodes[k]];
        current := Some(nodes[k]);
        at := k;
      }
    }
    if current.Some? {
      assert FirstBefore(nodes, dist, visited, current.value, at);
      forall n | n in nodes && n !in visited ensures AtMost(dist[current.value], dist[n]) {
        var j :| 0 <= j < |nodes| && nodes[j] == n;
      }
      assert Nearest(nodes, dist, visited, current.value);
    } else {
      forall n | n in nodes && n !in visited ensures dist[n] == Inf {
        var j :| 0 <= j < |nodes| && nodes[j] == n;
      }
    }
  }

  /**
   * The relaxation loop: for each edge leaving `current`, in order, the
   * distance through `current` replaces the target's distance when strictly
   * smaller.  Distances never grow, and with non-negative weights no distance
   * at most `current`'s changes and every edge leaving `current` ends relaxed;
   * a distance that changes is then the distance through `current` along one
   * of its edges.
   */
  method RelaxFrom(edges: seq<Edge>, current: string, dist0: map<string, Dist>) returns (dist: map<string, Dist>)
    requires current in dist0
    ensures RelaxOutcome(edges, current, dist0, dist)
    ensures NonNegativeWeights(edges) ==>
              forall v :: v in dist0 && dist[v] != dist0[v] ==>
                exists e :: e in edges && e.from == current && e.to == v && dist[v] == Plus(dist0[current], e.weight)
  {
    dist := dist0;
    ghost var via: map<string, nat> := map[];
    for k := 0 to |edges|
      invariant RelaxedUpTo(edges, current, dist0, dist, via, k)
    {
      ghost var before, viaBefore := dist, via;
      var edge := edges[k];
      if edge.from == current {
        var newDistance := Plus(dist[current], edge.weight);
        if edge.to in dist && Below(newDistance, dist[edge.to]) {
          dist := dist[edge.to := newDistance];
          via := via[edge.to := k];
        }
      }
      RelaxStep(edges, current, dist0, before, viaBefore, k, dist, via);
    }
    if NonNegativeWeights(edges) {
      forall e | e in edges && e.from == current && e.to in dist
        ensures AtMost(dist[e.to], Plus(dist[current], e.weight))
      {
        var j :| 0 <= j < |edges| && edges[j] == e;
      }
      forall v | v in dist0 && dist[v] != dist0[v]
        ensures exists e :: e in edges && e.from == current && e.to == v && dist[v] == Plus(dist0[current], e.weight)
      {
        assert edges[via[v]] in edges;
      }
    }
  }

  /**
   * The invariant of the relaxation loop after the first `k` edges; `via`
   * records, for each changed distance, the edge that set it.
   */
  ghost predicate RelaxedUpTo(edges: seq<Edge>, current: string, dist0: map<string, Dist>,
                              dist: map<string, Dist>, via: map<string, nat>, k: nat) {
    k <= |edges| && current in dist0 && dist.Keys == dist0.Keys &&
    (forall v :: v in dist0 ==> AtMost(dist[v], dist0[v])) &&
    (NonNegativeWeights(edges) ==>
      (forall v :: v in dist0 && AtMost(dist0[v], dist0[current]) ==> dist[v] == dist0[v]) &&
      dist[current] == dist0[current] &&
      (forall v :: v in dist0 ==> dist[v] == dist0[v] || AtMost(dist0[current], dist[v])) &&
      (forall j :: 0 <= j < k && edges[j].from == current && edges[j].to in dist ==>
         AtMost(dist[edges[j].to], Plus(dist[current], edges[j].weight))) &&
      (NonNegativeDistances(dist0) ==> NonNegativeDistances(dist)) &&
      (forall v :: v in dist0 && dist[v] != dist0[v] ==>
         v in via && via[v] < k && edges[via[v]].from == current && edges[via[v]].to == v &&
         dist[v] == Plus(dist0[current], edges[via[v]].weight)))
  }

  /** Relaxing edge `k` the way the loop body does keeps the loop invariant. */
  lemma RelaxStep(edges: seq<Edge>, current: string, dist0: map<string, Dist>,
                  before: map<string, Dist>, viaBefore: map<string, nat>, k: nat,
                  after: map<string, Dist>, viaAfter: map<string, nat>)
    requires RelaxedUpTo(edges, current, dist0, before, viaBefore, k) && k < |edges|
    requires var e := edges[k];
             if e.from == current && e.to in before && Below(Plus(before[current], e.weight), before[e.to])
             then after == before[e.to := Plus(before[current], e.weight)] && viaAfter == viaBefore[e.to := k]
             else after == before && viaAfter == viaBefore
    ensures RelaxedUpTo(edges, current, dist0, after, viaAfter, k + 1)
  {
    var e := edges[k];
    if e.from == current && e.to in before && Below(Plus(before[current], e.weight), before[e.to]) {
      assert NonNegativeWeights(edges) ==> e.weight >= 0 && e.to != current;
    }
  }

  /**
   * What relaxing the edges leaving `current` guarantees: the same nodes,
   * no distance grows, and with non-negative weights the distances at most
   * `current`'s stay, the others end at least `current`'s, every edge leaving
   * `current` is relaxed and finite distances stay non-negative.
   */
  predicate RelaxOutcome(edges: seq<Edge>, current: string, dist0: map<string, Dist>, dist: map<string, Dist>) {
    current in dist0 && dist.Keys == dist0.Keys &&
    (forall v :: v in dist0 ==> AtMost(dist[v], dist0[v])) &&
    (NonNegativeWeights(edges) ==>
      (forall v :: v in dist0 && AtMost(dist0[v], dist0[current]) ==> dist[v] == dist0[v]) &&
      (forall v :: v in dist0 ==> dist[v] == dist0[v] || AtMost(dist0[current], dist[v])) &&
      (forall e :: e in edges && e.from == current && e.to in dist ==> AtMost(dist[e.to], Plus(dist[current], e.weight))) &&
      (NonNegativeDistances(dist0) ==> NonNegativeDistances(dist)))
  }

  /**
   * The facts that hold between rounds: the distances are keyed by the nodes,
   * visited nodes are nodes with finite distances, the source is at most 0,
   * and with non-negative weights finite distances are non-negative, visited
   * nodes are no farther than unvisited ones and the edges leaving visited
   * nodes are relaxed.
   */
  ghost predicate Progress(nodes: seq<string>, edges: seq<Edge>, source: string, dist: map<string, Dist>, visited: set<string>) {
    (forall n :: n in dist <==> n in nodes) &&
    visited <= NodeSet(nodes) &&
    (forall n :: n in visited ==> dist[n].Fin?) &&
    (source in nodes ==> AtMost(dist[source], Fin(0))) &&
    (NonNegativeWeights(edges) ==>
      NonNegativeDistances(dist) &&
      (forall u, v :: u in visited && v in nodes && v !in visited ==> AtMost(dist[u], dist[v])) &&
      (forall e :: e in edges && e.from in visited && e.to in dist ==> AtMost(dist[e.to], Plus(dist[e.from], e.weight))))
  }

  /** The initial distances, with nothing visited, satisfy `Progress`. */
  lemma ProgressAtStart(nodes: seq<string>, edges: seq<Edge>, source: string, dist: map<string, Dist>)
    requires forall n :: n in dist <==> n in nodes
    requires forall n :: n in dist ==> dist[n] == if n == source then Fin(0) else Inf
    ensures Progress(nodes, edges, source, dist, {})
  {
  }

  /** Visiting the nearest node and relaxing its edges keeps `Progress`. */
  lemma RoundKeepsProgress(nodes: seq<string>, edges: seq<Edge>, source: string, before: map<string, Dist>,
                           after: map<string, Dist>, visited: set<string>, c: string)
    requires Progress(nodes, edges, source, before, visited)
    requires Nearest(nodes, before, visited, c)
    requires RelaxOutcome(edges, c, before, after)
    ensures Progress(nodes, edges, source, after, visited + {c})
  {
    if NonNegativeWeights(edges) {
      forall u | u in visited + {c} ensures after[u] == before[u] && AtMost(before[u], before[c]) {
        if u in visited {
          assert u in NodeSet(nodes);
        }
      }
    }
  }

  /**
   * One round of the main loop: picks the nearest unvisited node, marks it
   * visited and relaxes its edges; `found` is false, and nothing changes,
   * when every unvisited node is at infinity.
   */
  method VisitNearest(nodes: seq<string>, edges: seq<Edge>, source: string, dist0: map<string, Dist>, visited0: set<string>)
    returns (dist: map<string, Dist>, visited: set<string>, found: bool)
    requires Progress(nodes, edges, source, dist0, visited0)
    ensures Progress(nodes, edges, source, dist, visited)
    ensures found ==> exists c :: c in NodeSet(nodes) && c !in visited0 && visited == visited0 + {c}
    ensures found ==> |NodeSet(nodes) - visited| < |NodeSet(nodes) - visited0| && |visited| == |visited0| + 1
    ensures !found ==> dist == dist0 && visited == visited0
    ensures !found ==> forall n :: n in nodes && n !in visited ==> dist[n] == Inf
  {
    var current := SelectCurrent(nodes, dist0, visited0);
    if current.None? {
      return dist0, visited0, false;
    }
    var c := current.value;
    dist := RelaxFrom(edges, c, dist0);
    visited := visited0 + {c};
    found := true;
    RoundKeepsProgress(nodes, edges, source, dist0, dist, visited0, c);
    assert NodeSet(nodes) - visited < NodeSet(nodes) - visited0 by {
      assert c in NodeSet(nodes) - visited0;
    }
  }

  /**
   * The whole run; `rounds` is the final `stepCount`.  Every visited node has
   * a finite distance and every unvisited one is at infinity.  With
   * non-negative weights every edge ends relaxed, which is what makes the
   * distances bounds on path weights (`PathBound`).
   */
  method Dijkstra(nodes: seq<string>, edges: seq<Edge>, source: string)
    returns (dist: map<string, Dist>, visited: set<string>, rounds: nat)
    ensures forall n :: n in dist <==> n in nodes
    ensures visited <= NodeSet(nodes) && rounds == |visited|
    ensures forall n :: n in nodes ==> (n in visited <==> dist[n].Fin?)
    ensures source in nodes ==> AtMost(dist[source], Fin(0))
    ensures NonNegativeWeights(edges) ==> NonNegativeDistances(dist) && Relaxed(edges, dist)
    ensures NonNegativeWeights(edges) && source in nodes ==> dist[source] == Fin(0)
  {
    dist := InitialDistances(nodes, source);
    ProgressAtStart(nodes, edges, source, dist);
    visited := {};
    rounds := 0;
    var exhausted := false;
    while |visited| < |nodes| && !exhausted
      invariant Progress(nodes, edges, source, dist, visited) && rounds == |visited|
      invariant exhausted ==> forall n :: n in nodes && n !in visited ==> dist[n] == Inf
      decreases |NodeSet(nodes) - visited|, !exhausted
    {
      var found;
      dist, visited, found := VisitNearest(nodes, edges, source, dist, visited);
      if found {
        rounds := rounds + 1;
      } else {
        exhausted := true;
      }
    }
    FinalDistances(nodes, edges, source, dist, visited);
  }

  /** When the loop ends, the unvisited nodes are at infinity and, with non-negative weights, every edge is relaxed. */
  lemma FinalDistances(nodes: seq<string>, edges: seq<Edge>, source: string, dist: map<string, Dist>, visited: set<string>)
    requires Progress(nodes, edges, source, dist, visited)
    requires |visited| >= |nodes| || forall n :: n in nodes && n !in visited ==> dist[n] == Inf
    ensures forall n :: n in dist <==> n in nodes
    ensures visited <= NodeSet(nodes)
    ensures forall n :: n in nodes ==> (n in visited <==> dist[n].Fin?)
    ensures source in nodes ==> AtMost(dist[source], Fin(0))
    ensures NonNegativeWeights(edges) ==> NonNegativeDistances(dist) && Relaxed(edges, dist)
    ensures NonNegativeWeights(edges) && source in nodes ==> dist[source] == Fin(0)
  {
    if |visited| >= |nodes| {
      NodeSetSize(nodes);
      AllVisited(NodeSet(nodes), visited);
    }
  }

  /** A subset is no larger than its superset. */
  lemma SubsetSize(a: set<string>, b: set<string>)
    requires a <= b
    ensures |a| <= |b|
  {
    assert b == a + (b - a);
  }

  /** A subset at least as large as its superset is all of it. */
  lemma AllVisited(all: set<string>, visited: set<string>)
    requires visited <= all && |visited| >= |all|
    ensures visited == all
  {
    if visited != all {
      var x :| x in all && x !in visited;
      SubsetSize(visited, all - {x});
    }
  }

  /** `path` is a walk along `edges` from `a` to `b`. */
  predicate IsPath(edges: seq<Edge>, path: seq<Edge>, a: string, b: string)
    decreases |path|
  {
    if path == [] then a == b
    else path[0] in edges && path[0].from == a && IsPath(edges, path[1..], path[0].to, b)
  }

  /** The total weight of a walk. */
  function PathWeight(path: seq<Edge>): int
    decreases |path|
  {
    if path == [] then 0 else path[0].weight + PathWeight(path[1..])
  }

  /**
   * When every edge is relaxed, the distance at the end of any walk is at
   * most the distance at its start plus the walk's weight.
   */
  lemma {:induction false} PathBound(edges: seq<Edge>, dist: map<string, Dist>, path: seq<Edge>, a: string, b: string)
    requires EdgesWithin(edges, dist) && Relaxed(edges, dist) && a in dist && IsPath(edges, path, a, b)
    ensures b in dist && AtMost(dist[b], Plus(dist[a], PathWeight(path)))
    decreases |path|
  {
    if path != [] {
      var e := path[0];
      PathBound(edges, dist, path[1..], e.to, b);
      assert AtMost(dist[e.to], Plus(dist[a], e.weight));
    }
  }

  /**
   * With non-negative weights and edges between nodes, every node reachable
   * from the source is visited, at a distance no larger than the walk's weight.
   */
  lemma ReachableIsVisited(nodes: seq<string>, edges: seq<Edge>, source: string, dist: map<string, Dist>,
                           visited: set<string>, path: seq<Edge>, v: string)
    requires NonNegativeWeights(edges) && source in nodes
    requires forall e :: e in edges ==> e.from in nodes && e.to in nodes
    requires forall n :: n in dist <==> n in nodes
    requires forall n :: n in nodes ==> (n in visited <==> dist[n].Fin?)
    requires AtMost(dist[source], Fin(0)) && Relaxed(edges, dist)
    requires IsPath(edges, path, source, v)
    ensures v in nodes && v in visited && dist[v].Fin? && dist[v].value <= PathWeight(path)
  {
    PathBound(edges, dist, path, source, v);
  }

  /**
   * The visualizer's run: the fixed graph from the initial source A, whose
   * weights are non-negative, so A ends at 0 and every edge is relaxed.
   */
  method DijkstraVisualization() returns (dist: map<string, Dist>, visited: set<string>, rounds: nat)
    ensures forall n :: n in dist <==> n in GraphNodes
    ensures dist[SourceNode] == Fin(0)
    ensures rounds == |visited| && visited <= NodeSet(GraphNodes)
    ensures forall n :: n in GraphNodes ==> (n in visited <==> dist[n].Fin?)
    ensures Relaxed(GraphEdges, dist)
  {
    GraphIsWellFormed();
    dist, visited, rounds := Dijkstra(GraphNodes, GraphEdges, SourceNode);
  }
}
