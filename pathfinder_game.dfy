/**
 * The Graph Pathfinder round (pages/GraphPathfinderPage.jsx): the player clicks a route from
 * the start node, may undo or backtrack, and presses Check to compare its cost with Dijkstra's.
 * React state is a value here; each handler returns the next state.
 */
module PathfinderGame {
  import opened Wrappers
  import opened PathGraph
  import opened ShortestPaths

  /** The page declares "invalid" as a status too, but no handler ever sets it. */
  datatype Status = Playing | Won

  /** The message line under the board. */
  datatype Note =
    | Blank
    | NotConnected
    | NoPath
    | NotAtGoal
    | NonEdgeStep
    | MissingWeight
    | Perfect(cost: int, optimum: int)
    | Nice(cost: int, optimum: int)

  datatype Round = Round(path: seq<nat>, status: Status, errors: nat, note: Note)

  /** The state after a reset or a new graph. */
  function Fresh(start: nat): (g: Round)
    ensures g.path == [start] && g.status == Playing && g.errors == 0
  {
    Round([start], Playing, 0, Blank)
  }

  /** Array.prototype.lastIndexOf: the last position holding x, or -1. */
  function LastIndexOf(s: seq<nat>, x: nat): (i: int)
    ensures -1 <= i < |s|
    ensures i == -1 <==> x !in s
    ensures i >= 0 ==> s[i] == x && x !in s[i + 1..]
  {
    if s == [] then -1
    else if s[|s| - 1] == x then |s| - 1
    else
      assert s[..|s| - 1] + [s[|s| - 1]] == s;
      LastIndexOf(s[..|s| - 1], x)
  }

  /** onNodeClick: ignore, backtrack to the last occurrence, refuse a non-neighbour, or extend. */
  function OnNodeClick(adj: Adjacency, g: Round, id: nat): (r: Round)
    requires g.path != []
    ensures r.status == g.status && r.errors == g.errors
    ensures g.status != Playing || id == g.path[|g.path| - 1] ==> r == g
    ensures g.status == Playing && id != g.path[|g.path| - 1] && id in g.path ==>
      1 <= |r.path| < |g.path| && r.path == g.path[..|r.path|] && r.path[|r.path| - 1] == id &&
      id !in g.path[|r.path|..]
    ensures g.status == Playing && id !in g.path && !IsNeighbor(adj, g.path[|g.path| - 1], id) ==>
      r.path == g.path && r.note == NotConnected
    ensures g.status == Playing && id !in g.path && IsNeighbor(adj, g.path[|g.path| - 1], id) ==>
      r.path == g.path + [id] && r.note == Blank
  {
    var last := g.path[|g.path| - 1];
    if g.status != Playing || id == last then g
    else
      var idx := LastIndexOf(g.path, id);
      if idx != -1 then g.(path := g.path[..idx + 1])
      else if !IsNeighbor(adj, last, id) then g.(note := NotConnected)
      else g.(path := g.path + [id], note := Blank)
  }

  /** undo: drop the last node while playing, never the start. */
  function Undo(g: Round): (r: Round)
    ensures g.status == Playing && |g.path| > 1 ==> r == g.(path := g.path[..|g.path| - 1])
    ensures g.status != Playing || |g.path| <= 1 ==> r == g
  {
    if |g.path| <= 1 || g.status != Playing then g else g.(path := g.path[..|g.path| - 1])
  }

  /** Every step of the route is along an adjacency entry. */
  predicate Connected(adj: Adjacency, p: seq<nat>)
  {
    forall i :: 0 <= i < |p| - 1 ==> IsNeighbor(adj, p[i], p[i + 1])
  }

  /** A refused check: one more error and the reason. */
  function Fail(g: Round, why: Note): (r: Round)
    ensures r.path == g.path && r.status == g.status && r.errors == g.errors + 1
  {
    g.(errors := g.errors + 1, note := why)
  }

  /** check's outcome; `!safeOptimal` is true for an unreachable goal and for an optimum of 0. */
  function Checked(adj: Adjacency, m: map<EdgeKey, int>, optimal: Option<int>, goal: nat, g: Round): (r: Round)
    requires g.path != []
    ensures r.path == g.path
    ensures r.errors == g.errors <==>
      optimal.Some? && optimal.value != 0 && g.path[|g.path| - 1] == goal && Connected(adj, g.path) &&
      PathCost(m, g.path).Some?
    ensures r.errors != g.errors ==> r.status == g.status && r.errors == g.errors + 1
    ensures r.errors == g.errors ==>
      r.status == Won &&
      (r.note.Perfect? <==> PathCost(m, g.path) == optimal) &&
      (r.note.Perfect? || r.note.Nice?) && r.note.cost == PathCost(m, g.path).value
  {
    if optimal.None? || optimal.value == 0 then Fail(g, NoPath)
    else if g.path[|g.path| - 1] != goal then Fail(g, NotAtGoal)
    else if !Connected(adj, g.path) then Fail(g, NonEdgeStep)
    else
      var w := PathCost(m, g.path);
      if w.None? then Fail(g, MissingWeight)
      else if w.value == optimal.value then g.(status := Won, note := Perfect(w.value, optimal.value))
      else g.(status := Won, note := Nice(w.value, optimal.value))
  }

  /** check: the guards in order, a loop over the steps, then pathWeight. */
  method Check(adj: Adjacency, m: map<EdgeKey, int>, optimal: Option<int>, goal: nat, g: Round)
    returns (r: Round)
    requires g.path != []
    ensures r == Checked(adj, m, optimal, goal, g)
  {
    if optimal.None? || optimal.value == 0 {
      return Fail(g, NoPath);
    }
    var path := g.path;
    if path[|path| - 1] != goal {
      return Fail(g, NotAtGoal);
    }
    for i := 0 to |path| - 1
      invariant forall j :: 0 <= j < i ==> IsNeighbor(adj, path[j], path[j + 1])
    {
      if !IsNeighbor(adj, path[i], path[i + 1]) {
        return Fail(g, NonEdgeStep);
      }
    }
    var w := PathWeight(m, path);
    if w.None? {
      return Fail(g, MissingWeight);
    }
    if w.value == optimal.value {
      r := g.(status := Won, note := Perfect(w.value, optimal.value));
    } else {
      r := g.(status := Won, note := Nice(w.value, optimal.value));
    }
  }

  // ---------------------------------------------------------------------------------------
  // Properties
  // ---------------------------------------------------------------------------------------

  /** The route the player builds: it starts at the start node and follows adjacency entries. */
  predicate Route(adj: Adjacency, start: nat, p: seq<nat>)
  {
    p != [] && p[0] == start && Connected(adj, p)
  }

  /** Clicks and undo keep the route a connected route from the start. */
  lemma ClicksKeepRoute(adj: Adjacency, start: nat, g: Round, id: nat)
    requires Route(adj, start, g.path)
    ensures Route(adj, start, OnNodeClick(adj, g, id).path)
    ensures Route(adj, start, Undo(g).path)
  {
    var r := OnNodeClick(adj, g, id);
    if g.status == Playing && id != g.path[|g.path| - 1] && id !in g.path &&
       IsNeighbor(adj, g.path[|g.path| - 1], id) {
      var p := g.path + [id];
      forall i | 0 <= i < |p| - 1 ensures IsNeighbor(adj, p[i], p[i + 1]) {
        if i < |g.path| - 1 {
          assert p[i] == g.path[i] && p[i + 1] == g.path[i + 1];
        }
      }
    }
  }

  /** A connected route is a walk: each step's weight is read off the adjacency entry it uses. */
  lemma {:induction false} ConnectedIsWalk(adj: Adjacency, p: seq<nat>) returns (ws: seq<int>)
    requires p != [] && Connected(adj, p)
    ensures IsWalk(adj, p, ws)
    decreases |p|
  {
    if |p| == 1 {
      ws := [];
    } else {
      var init := p[..|p| - 1];
      assert Connected(adj, init) by {
        forall i | 0 <= i < |init| - 1 ensures IsNeighbor(adj, init[i], init[i + 1]) {
          assert init[i] == p[i] && init[i + 1] == p[i + 1];
        }
      }
      var ws0 := ConnectedIsWalk(adj, init);
      var a := p[|p| - 2];
      assert IsNeighbor(adj, a, p[|p| - 1]);
      var k :| 0 <= k < |adj[a]| && adj[a][k].to == p[|p| - 1];
      ws := ws0 + [adj[a][k].w];
      assert adj[a][k] == Arc(p[|p| - 1], ws[|ws| - 1]);
      assert ws[..|ws| - 1] == ws0;
    }
  }

  /** The graph of a round: buildAdj over makeGraph's simple edge list with weights 1..9. */
  ghost predicate Board(n: nat, edges: seq<GraphEdge>, start: nat, dist: Dist, prev: Prev)
  {
    EdgesInRange(n, edges) && SimpleEdges(edges) && (forall k :: 0 <= k < |edges| ==> 1 <= edges[k].w <= 9) &&
    ShortestPathTree(AdjOf(n, edges), start, dist, prev)
  }

  /**
   * A won check means the route ends at the goal along edges and costs at least the optimum;
   * the note says Perfect exactly when it costs the optimum.
   */
  lemma WinIsNoCheaperThanOptimum(n: nat, edges: seq<GraphEdge>, start: nat, goal: nat,
                                  dist: Dist, prev: Prev, g: Round)
    requires Board(n, edges, start, dist, prev) && goal < n
    requires Route(AdjOf(n, edges), start, g.path)
    requires Checked(AdjOf(n, edges), EdgeMap(edges), dist[goal], goal, g).errors == g.errors
    ensures var r := Checked(AdjOf(n, edges), EdgeMap(edges), dist[goal], goal, g);
      g.path[|g.path| - 1] == goal && r.note.cost >= dist[goal].value &&
      (r.note.Perfect? <==> r.note.cost == dist[goal].value)
  {
    var adj := AdjOf(n, edges);
    var ws := ConnectedIsWalk(adj, g.path);
    WalkCostIsPathWeight(n, edges, g.path, ws);
  }

  /** Following Dijkstra's own path to a reachable goal other than the start wins with Perfect. */
  lemma OptimalPathIsPerfect(n: nat, edges: seq<GraphEdge>, start: nat, goal: nat,
                             dist: Dist, prev: Prev, g: Round)
    requires Board(n, edges, start, dist, prev) && goal < n && goal != start && dist[goal].Some?
    requires Descending(AdjOf(n, edges), dist, prev)
    requires g.path == PathTo(AdjOf(n, edges), dist, prev, start, goal)
    ensures g.path != []
    ensures Checked(AdjOf(n, edges), EdgeMap(edges), dist[goal], goal, g).note == Perfect(dist[goal].value, dist[goal].value)
  {
    var adj := AdjOf(n, edges);
    ClampedWeightsPositive(n, edges);
    ReconstructedPathIsShortest(adj, start, dist, prev, goal);
    var ws := ChainWeights(adj, dist, prev, start, goal);
    WalkConnected(adj, g.path, ws);
    WalkCostIsPathWeight(n, edges, g.path, ws);
  }

  lemma {:induction false} WalkConnected(adj: Adjacency, p: seq<nat>, ws: seq<int>)
    requires IsWalk(adj, p, ws)
    ensures Connected(adj, p)
    decreases |ws|
  {
    if ws != [] {
      var init := p[..|p| - 1];
      WalkConnected(adj, init, ws[..|ws| - 1]);
      var a := p[|p| - 2];
      var arc := Arc(p[|p| - 1], ws[|ws| - 1]);
      var k :| 0 <= k < |adj[a]| && adj[a][k] == arc;
      forall i | 0 <= i < |p| - 1 ensures IsNeighbor(adj, p[i], p[i + 1]) {
        if i < |p| - 2 {
          assert p[i] == init[i] && p[i + 1] == init[i + 1];
        }
      }
    }
  }
}
