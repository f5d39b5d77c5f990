/**
 * The weighted undirected graph of the Graph Pathfinder minigame (pages/GraphPathfinderPage.jsx):
 * edges between numbered nodes, the adjacency lists buildAdj fills, the edge-weight map keyed by
 * edgeKey, walks and their cost, and pathWeight.
 */
module PathGraph {
  import opened Wrappers

  /** An undirected edge u–v with weight w (makeGraph clamps weights to 1..9). */
  datatype GraphEdge = GraphEdge(u: nat, v: nat, w: int)

  /** An adjacency entry `{ to, w }`. */
  datatype Arc = Arc(to: nat, w: int)

  type Adjacency = seq<seq<Arc>>

  /**
   * edgeKey(u, v): the text "lo-hi" with the smaller id first, modelled as the ordered pair it
   * spells (two ids written in decimal around a dash name the pair uniquely).
   */
  datatype EdgeKey = EdgeKey(lo: nat, hi: nat)

  function KeyOf(u: nat, v: nat): (k: EdgeKey)
    ensures k.lo <= k.hi
    ensures {k.lo, k.hi} == {u, v}
  {
    if u < v then EdgeKey(u, v) else EdgeKey(v, u)
  }

  // ---------------------------------------------------------------------------------------
  // buildAdj
  // ---------------------------------------------------------------------------------------

  predicate EdgesInRange(n: nat, edges: seq<GraphEdge>)
  {
    forall k :: 0 <= k < |edges| ==> edges[k].u < n && edges[k].v < n
  }

  /** The lists after pushing both directions of every edge, in edge order. */
  function AdjOf(n: nat, edges: seq<GraphEdge>): (adj: Adjacency)
    requires EdgesInRange(n, edges)
    ensures |adj| == n
  {
    if edges == [] then seq(n, _ => [])
    else
      var init := edges[..|edges| - 1];
      var e := edges[|edges| - 1];
      var a := AdjOf(n, init);
      var a1 := a[e.u := a[e.u] + [Arc(e.v, e.w)]];
      a1[e.v := a1[e.v] + [Arc(e.u, e.w)]]
  }

  /** buildAdj: one empty list per node, then a push at each end of every edge. */
  method BuildAdj(n: nat, edges: seq<GraphEdge>) returns (adj: Adjacency)
    requires EdgesInRange(n, edges)
    ensures adj == AdjOf(n, edges)
  {
    adj := seq(n, _ => []);
    var i := 0;
    while i < |edges|
      invariant 0 <= i <= |edges|
      invariant adj == AdjOf(n, edges[..i])
    {
      assert edges[..i + 1][..i] == edges[..i];
      var e := edges[i];
      adj := adj[e.u := adj[e.u] + [Arc(e.v, e.w)]];
      adj := adj[e.v := adj[e.v] + [Arc(e.u, e.w)]];
      i := i + 1;
    }
    assert edges[..i] == edges;
  }

  predicate ArcsInRange(adj: Adjacency)
  {
    forall a, k :: 0 <= a < |adj| && 0 <= k < |adj[a]| ==> adj[a][k].to < |adj|
  }

  ghost predicate PositiveWeights(adj: Adjacency)
  {
    forall a, k :: 0 <= a < |adj| && 0 <= k < |adj[a]| ==> adj[a][k].w >= 1
  }

  /** isNeighbor(a, b): some entry of adj[a] leads to b. */
  predicate IsNeighbor(adj: Adjacency, a: nat, b: nat)
  {
    a < |adj| && exists k :: 0 <= k < |adj[a]| && adj[a][k].to == b
  }

  // ---------------------------------------------------------------------------------------
  // Walks
  // ---------------------------------------------------------------------------------------

  /** A walk: nodes joined by adjacency entries, ws[i] the weight of the step into nodes[i + 1]. */
  ghost predicate IsWalk(adj: Adjacency, nodes: seq<nat>, ws: seq<int>)
    decreases |ws|
  {
    |nodes| == |ws| + 1 &&
    (ws != [] ==>
      nodes[|nodes| - 2] < |adj| && Arc(nodes[|nodes| - 1], ws[|ws| - 1]) in adj[nodes[|nodes| - 2]] &&
      IsWalk(adj, nodes[..|nodes| - 1], ws[..|ws| - 1]))
  }

  function Sum(ws: seq<int>): int
  {
    if ws == [] then 0 else Sum(ws[..|ws| - 1]) + ws[|ws| - 1]
  }

  // ---------------------------------------------------------------------------------------
  // The edge map and pathWeight
  // ---------------------------------------------------------------------------------------

  /** edgeMap: each edge's weight under its key, a later edge replacing an earlier one. */
  function EdgeMap(edges: seq<GraphEdge>): map<EdgeKey, int>
  {
    if edges == [] then map[]
    else
      var e := edges[|edges| - 1];
      EdgeMap(edges[..|edges| - 1])[KeyOf(e.u, e.v) := e.w]
  }

  /** pathWeight's value: the sum of the step weights, None (Infinity) if a step has no edge. */
  function PathCost(m: map<EdgeKey, int>, p: seq<nat>): Option<int>
  {
    if |p| <= 1 then Some(0)
    else
      var k := KeyOf(p[|p| - 2], p[|p| - 1]);
      var rest := PathCost(m, p[..|p| - 1]);
      if rest.None? || k !in m then None else Some(rest.value + m[k])
  }

  /** pathWeight: the loop summing the step weights, returning Infinity at the first missing edge. */
  method PathWeight(m: map<EdgeKey, int>, p: seq<nat>) returns (r: Option<int>)
    ensures r == PathCost(m, p)
  {
    if |p| == 0 {
      return Some(0);
    }
    var sum := 0;
    var i := 0;
    assert p[..1] == [p[0]];
    while i + 1 < |p|
      invariant 0 <= i < |p|
      invariant PathCost(m, p[..i + 1]) == Some(sum)
    {
      assert p[..i + 2][..i + 1] == p[..i + 1];
      var k := KeyOf(p[i], p[i + 1]);
      if k !in m {
        PathCostNoneExtends(m, p, i + 2);
        return None;
      }
      sum := sum + m[k];
      i := i + 1;
    }
    assert p[..i + 1] == p;
    return Some(sum);
  }

  lemma {:induction false} PathCostNoneExtends(m: map<EdgeKey, int>, p: seq<nat>, j: nat)
    requires 2 <= j <= |p| && PathCost(m, p[..j]) == None
    ensures PathCost(m, p) == None
    decreases |p| - j
  {
    if j < |p| {
      assert p[..j + 1][..j] == p[..j];
      PathCostNoneExtends(m, p, j + 1);
    } else {
      assert p[..j] == p;
    }
  }

  // ---------------------------------------------------------------------------------------
  // Properties
  // ---------------------------------------------------------------------------------------

  /** edgeKey is symmetric and names the unordered pair. */
  lemma KeySymmetric(u: nat, v: nat, x: nat, y: nat)
    ensures KeyOf(u, v) == KeyOf(v, u)
    ensures KeyOf(u, v) == KeyOf(x, y) <==> {u, v} == {x, y}
  {
    var k := KeyOf(u, v);
    if {u, v} == {x, y} {
      assert u == x || u == y;
    }
  }

  /** Edges with pairwise different keys and no self-loops (what addEdge admits). */
  ghost predicate SimpleEdges(edges: seq<GraphEdge>)
  {
    (forall k :: 0 <= k < |edges| ==> edges[k].u != edges[k].v) &&
    (forall i, j :: 0 <= i < j < |edges| ==> KeyOf(edges[i].u, edges[i].v) != KeyOf(edges[j].u, edges[j].v))
  }

  /** buildAdj puts every edge into both lists, with its weight. */
  lemma {:induction false} AdjHasBothDirections(n: nat, edges: seq<GraphEdge>, k: nat)
    requires EdgesInRange(n, edges) && k < |edges|
    ensures Arc(edges[k].v, edges[k].w) in AdjOf(n, edges)[edges[k].u]
    ensures Arc(edges[k].u, edges[k].w) in AdjOf(n, edges)[edges[k].v]
    decreases |edges|
  {
    var init := edges[..|edges| - 1];
    if k < |edges| - 1 {
      AdjHasBothDirections(n, init, k);
      assert init[k] == edges[k];
    }
  }

  /** Every adjacency entry comes from an edge, in one direction or the other. */
  lemma {:induction false} AdjFromEdges(n: nat, edges: seq<GraphEdge>, a: nat, arc: Arc)
    requires EdgesInRange(n, edges) && a < n && arc in AdjOf(n, edges)[a]
    ensures exists k :: (0 <= k < |edges| && edges[k].w == arc.w &&
      ((edges[k].u == a && edges[k].v == arc.to) || (edges[k].v == a && edges[k].u == arc.to)))
    decreases |edges|
  {
    var init := edges[..|edges| - 1];
    var e := edges[|edges| - 1];
    var prior := AdjOf(n, init);
    var a1 := prior[e.u := prior[e.u] + [Arc(e.v, e.w)]];
    if arc in prior[a] {
      AdjFromEdges(n, init, a, arc);
      var k :| 0 <= k < |init| && init[k].w == arc.w &&
        ((init[k].u == a && init[k].v == arc.to) || (init[k].v == a && init[k].u == arc.to));
      assert edges[k] == init[k];
    } else {
      assert edges[|edges| - 1] == e;
    }
  }

  /** The key of an edge in a simple edge list maps to its weight. */
  lemma {:induction false} EdgeMapHasEdge(edges: seq<GraphEdge>, k: nat)
    requires SimpleEdges(edges) && k < |edges|
    ensures KeyOf(edges[k].u, edges[k].v) in EdgeMap(edges)
    ensures EdgeMap(edges)[KeyOf(edges[k].u, edges[k].v)] == edges[k].w
    decreases |edges|
  {
    var init := edges[..|edges| - 1];
    if k < |edges| - 1 {
      assert SimpleEdges(init) by {
        forall i, j | 0 <= i < j < |init|
          ensures KeyOf(init[i].u, init[i].v) != KeyOf(init[j].u, init[j].v)
        {
          assert init[i] == edges[i] && init[j] == edges[j];
        }
      }
      EdgeMapHasEdge(init, k);
      assert init[k] == edges[k];
    }
  }

  /**
   * In a simple graph the edge map and the adjacency lists agree: an entry a -> b of weight w
   * means the map holds w under edgeKey(a, b).
   */
  lemma ArcWeightInMap(n: nat, edges: seq<GraphEdge>, a: nat, arc: Arc)
    requires EdgesInRange(n, edges) && SimpleEdges(edges) && a < n && arc in AdjOf(n, edges)[a]
    ensures KeyOf(a, arc.to) in EdgeMap(edges) && EdgeMap(edges)[KeyOf(a, arc.to)] == arc.w
  {
    AdjFromEdges(n, edges, a, arc);
    var k :| 0 <= k < |edges| && edges[k].w == arc.w &&
      ((edges[k].u == a && edges[k].v == arc.to) || (edges[k].v == a && edges[k].u == arc.to));
    EdgeMapHasEdge(edges, k);
    KeySymmetric(a, arc.to, edges[k].u, edges[k].v);
  }

  /** Weights clamped to 1..9 by makeGraph give positive adjacency weights. */
  lemma {:induction false} ClampedWeightsPositive(n: nat, edges: seq<GraphEdge>)
    requires EdgesInRange(n, edges)
    requires forall k :: 0 <= k < |edges| ==> 1 <= edges[k].w <= 9
    ensures PositiveWeights(AdjOf(n, edges))
    ensures ArcsInRange(AdjOf(n, edges))
  {
    var adj: seq<seq<Arc>> := AdjOf(n, edges);
    forall a: int, j: int | 0 <= a < |adj| && 0 <= j < |adj[a]| ensures adj[a][j].w >= 1 && adj[a][j].to < |adj| {
      assert adj[a][j] in adj[a];
      AdjFromEdges(n, edges, a, adj[a][j]);
    }
  }

  /**
   * A walk in a simple graph costs what pathWeight computes: the edge map holds every step, and
   * the sum of its weights is the walk's cost.
   */
  lemma {:induction false} WalkCostIsPathWeight(n: nat, edges: seq<GraphEdge>, nodes: seq<nat>, ws: seq<int>)
    requires EdgesInRange(n, edges) && SimpleEdges(edges)
    requires IsWalk(AdjOf(n, edges), nodes, ws)
    ensures PathCost(EdgeMap(edges), nodes) == Some(Sum(ws))
    decreases |ws|
  {
    if ws != [] {
      var adj := AdjOf(n, edges);
      WalkCostIsPathWeight(n, edges, nodes[..|nodes| - 1], ws[..|ws| - 1]);
      var a := nodes[|nodes| - 2];
      ArcWeightInMap(n, edges, a, Arc(nodes[|nodes| - 1], ws[|ws| - 1]));
      assert nodes[..|nodes| - 1][..|nodes| - 2] == nodes[..|nodes| - 2];
    }
  }
}
