/**
 * Dijkstra's algorithm with predecessors and the path read back from them
 * (dijkstraWithPrev and reconstructPath in pages/GraphPathfinderPage.jsx). Infinity is None.
 * Weights are positive: makeGraph clamps every edge weight to 1..9.
 */
module ShortestPaths {
  import opened Wrappers
  import opened PathGraph
  import opened Seqs

  type Dist = seq<Option<int>>
  type Prev = seq<Option<nat>>

  /** `a < b` on distances where None is Infinity. */
  predicate Below(a: Option<int>, b: Option<int>)
  {
    a.Some? && (b.None? || a.value < b.value)
  }

  // ---------------------------------------------------------------------------------------
  // What the result promises
  // ---------------------------------------------------------------------------------------

  ghost predicate NonNegative(dist: Dist)
  {
    forall x :: 0 <= x < |dist| && dist[x].Some? ==> dist[x].value >= 0
  }

  /** Each predecessor link is an adjacency entry whose weight is the difference of the distances. */
  ghost predicate Links(adj: Adjacency, dist: Dist, prev: Prev)
    requires |dist| == |adj| && |prev| == |adj|
  {
    forall x :: 0 <= x < |prev| && prev[x].Some? ==>
      prev[x].value < |adj| && dist[x].Some? && dist[prev[x].value].Some? &&
      Arc(x, dist[x].value - dist[prev[x].value].value) in adj[prev[x].value]
  }

  /** Every node with a finite distance other than the start has a predecessor. */
  ghost predicate Reached(start: nat, dist: Dist, prev: Prev)
    requires |dist| == |prev|
  {
    forall x :: 0 <= x < |dist| && dist[x].Some? && x != start ==> prev[x].Some?
  }

  /** No walk from the start is cheaper than the distance of the node it ends at. */
  ghost predicate Optimal(adj: Adjacency, start: nat, dist: Dist)
    requires |dist| == |adj|
  {
    forall nodes, ws :: IsWalk(adj, nodes, ws) && nodes[0] == start && nodes[|nodes| - 1] < |adj| ==>
      dist[nodes[|nodes| - 1]].Some? && dist[nodes[|nodes| - 1]].value <= Sum(ws)
  }

  /** The outcome of dijkstraWithPrev: distances from start and a tree of shortest paths. */
  ghost predicate ShortestPathTree(adj: Adjacency, start: nat, dist: Dist, prev: Prev)
  {
    start < |adj| && |dist| == |adj| && |prev| == |adj| &&
    dist[start] == Some(0) && prev[start].None? &&
    NonNegative(dist) && Links(adj, dist, prev) && Reached(start, dist, prev) && Optimal(adj, start, dist)
  }

  // ---------------------------------------------------------------------------------------
  // The loop invariant
  // ---------------------------------------------------------------------------------------

  /** Settled nodes have finite distances no larger than any unsettled finite distance. */
  ghost predicate SettledFirst(dist: Dist, used: seq<bool>)
    requires |dist| == |used|
  {
    (forall a :: 0 <= a < |used| && used[a] ==> dist[a].Some?) &&
    (forall a, x :: 0 <= a < |used| && 0 <= x < |used| && used[a] && !used[x] && dist[x].Some? ==>
       dist[a].value <= dist[x].value)
  }

  /** Every entry out of a settled node has been relaxed. */
  ghost predicate RelaxedOut(adj: Adjacency, dist: Dist, used: seq<bool>)
    requires |dist| == |adj| && |used| == |adj| && ArcsInRange(adj)
  {
    forall a, k :: 0 <= a < |adj| && used[a] && 0 <= k < |adj[a]| ==>
      dist[a].Some? && dist[adj[a][k].to].Some? && dist[adj[a][k].to].value <= dist[a].value + adj[a][k].w
  }

  /** Predecessors are settled. */
  ghost predicate PrevSettled(prev: Prev, used: seq<bool>)
    requires |prev| == |used|
  {
    forall x :: 0 <= x < |prev| && prev[x].Some? ==> prev[x].value < |used| && used[prev[x].value]
  }

  ghost predicate Inv(adj: Adjacency, start: nat, dist: Dist, prev: Prev, used: seq<bool>)
  {
    start < |adj| && ArcsInRange(adj) &&
    |dist| == |adj| && |prev| == |adj| && |used| == |adj| &&
    dist[start] == Some(0) && prev[start].None? &&
    NonNegative(dist) && SettledFirst(dist, used) && RelaxedOut(adj, dist, used) &&
    Links(adj, dist, prev) && PrevSettled(prev, used) && Reached(start, dist, prev)
  }

  /** Every node is settled or out of reach. */
  ghost predicate Complete(dist: Dist, used: seq<bool>)
    requires |dist| == |used|
  {
    forall x :: 0 <= x < |used| ==> used[x] || dist[x].None?
  }

  function Count(s: seq<bool>): (c: nat)
    ensures c <= |s|
  {
    if s == [] then 0 else Count(s[..|s| - 1]) + (if s[|s| - 1] then 1 else 0)
  }

  // ---------------------------------------------------------------------------------------
  // The algorithm
  // ---------------------------------------------------------------------------------------

  /** The selection pass: the first unsettled node of least finite distance, or -1. */
  ghost predicate Selected(dist: Dist, used: seq<bool>, v: int)
    requires |dist| == |used|
  {
    -1 <= v < |dist| &&
    (v == -1 ==> forall i :: 0 <= i < |dist| && !used[i] ==> dist[i].None?) &&
    (v >= 0 ==>
       (!used[v] && dist[v].Some? &&
        (forall i :: 0 <= i < |dist| && !used[i] && dist[i].Some? ==> dist[v].value <= dist[i].value) &&
        (forall i :: 0 <= i < v && !used[i] && dist[i].Some? ==> dist[v].value < dist[i].value)))
  }

  method SelectMin(dist: Dist, used: seq<bool>) returns (v: int)
    requires |dist| == |used|
    ensures Selected(dist, used, v)
  {
    v := -1;
    var best: Option<int> := None;
    for i := 0 to |dist|
      invariant -1 <= v < i || (v == -1 && i == 0)
      invariant v == -1 <==> best.None?
      invariant v == -1 ==> forall j :: 0 <= j < i && !used[j] ==> dist[j].None?
      invariant v >= 0 ==> !used[v] && dist[v] == best && best.Some?
      invariant v >= 0 ==> forall j :: 0 <= j < i && !used[j] && dist[j].Some? ==> best.value <= dist[j].value
      invariant v >= 0 ==> forall j :: 0 <= j < v && !used[j] && dist[j].Some? ==> best.value < dist[j].value
    {
      if !used[i] && Below(dist[i], best) {
        best := dist[i];
        v := i;
      }
    }
  }

  /** One relaxation outcome for node x: unchanged, or lowered through an entry out of v. */
  ghost predicate Lowered(adj: Adjacency, v: nat, dist: Dist, dist': Dist, prev': Prev, x: nat)
    requires v < |adj| && |dist| == |adj| && x < |dist| && |dist'| == |dist| && |prev'| == |dist| && dist[v].Some?
  {
    dist'[x].Some? && Below(dist'[x], dist[x]) && prev'[x] == Some(v) &&
    dist'[x].value >= dist[v].value + 1 && Arc(x, dist'[x].value - dist[v].value) in adj[v]
  }

  ghost predicate RelaxOutcome(adj: Adjacency, v: nat, dist: Dist, prev: Prev, dist': Dist, prev': Prev)
    requires v < |adj| && |dist| == |adj| && |prev| == |adj| && dist[v].Some? && ArcsInRange(adj)
  {
    |dist'| == |adj| && |prev'| == |adj| &&
    (forall k :: 0 <= k < |adj[v]| ==>
       dist'[adj[v][k].to].Some? && dist'[adj[v][k].to].value <= dist[v].value + adj[v][k].w) &&
    (forall x :: 0 <= x < |adj| ==>
       (dist'[x] == dist[x] && prev'[x] == prev[x]) || Lowered(adj, v, dist, dist', prev', x))
  }

  /** The inner loop over adj[v]: `if (dist[v] + w < dist[to]) { dist[to] = ...; prev[to] = v }`. */
  method Relax(adj: Adjacency, v: nat, dist: Dist, prev: Prev) returns (dist': Dist, prev': Prev)
    requires v < |adj| && |dist| == |adj| && |prev| == |adj| && dist[v].Some?
    requires ArcsInRange(adj) && PositiveWeights(adj)
    ensures RelaxOutcome(adj, v, dist, prev, dist', prev')
  {
    dist', prev' := dist, prev;
    var dv := dist[v].value;
    for k := 0 to |adj[v]|
      invariant |dist'| == |adj| && |prev'| == |adj|
      invariant dist'[v] == dist[v]
      invariant forall j :: 0 <= j < k ==>
        dist'[adj[v][j].to].Some? && dist'[adj[v][j].to].value <= dv + adj[v][j].w
      invariant forall x :: 0 <= x < |adj| ==>
        (dist'[x] == dist[x] && prev'[x] == prev[x]) || Lowered(adj, v, dist, dist', prev', x)
    {
      var arc := adj[v][k];
      assert arc.w >= 1;
      var nd := dv + arc.w;
      if Below(Some(nd), dist'[arc.to]) {
        dist' := dist'[arc.to := Some(nd)];
        prev' := prev'[arc.to := Some(v)];
        assert arc in adj[v];
      }
    }
  }

  /** dijkstraWithPrev: n rounds of select-settle-relax, stopping early when nothing is in reach. */
  method DijkstraWithPrev(adj: Adjacency, start: nat) returns (dist: Dist, prev: Prev)
    requires start < |adj| && ArcsInRange(adj) && PositiveWeights(adj)
    ensures ShortestPathTree(adj, start, dist, prev)
  {
    var n := |adj|;
    dist := seq(n, i => if i == start then Some(0) else None);
    prev := seq(n, _ => None);
    var used: seq<bool> := seq(n, _ => false);
    CountNone(used);
    var it := 0;
    var stop := false;
    while it < n && !stop
      invariant 0 <= it <= n
      invariant Inv(adj, start, dist, prev, used)
      invariant Count(used) == it
      invariant stop ==> Complete(dist, used)
      decreases n - it, if stop then 0 else 1
    {
      var v := SelectMin(dist, used);
      if v == -1 {
        stop := true;
      } else {
        var used' := used[v := true];
        var dist', prev' := Relax(adj, v, dist, prev);
        Step(adj, start, dist, prev, used, v, dist', prev');
        CountSet(used, v);
        dist, prev, used := dist', prev', used';
        it := it + 1;
      }
    }
    if !stop {
      CountFull(used);
    }
    Optimality(adj, start, dist, prev, used);
  }

  // ---------------------------------------------------------------------------------------
  // The invariant is kept
  // ---------------------------------------------------------------------------------------

  lemma {:induction false} CountNone(s: seq<bool>)
    requires forall i :: 0 <= i < |s| ==> !s[i]
    ensures Count(s) == 0
    decreases |s|
  {
    if s != [] {
      CountNone(s[..|s| - 1]);
    }
  }

  lemma {:induction false} CountSet(s: seq<bool>, v: nat)
    requires v < |s| && !s[v]
    ensures Count(s[v := true]) == Count(s) + 1
    decreases |s|
  {
    var t := s[v := true];
    if v < |s| - 1 {
      assert t[..|t| - 1] == s[..|s| - 1][v := true];
      CountSet(s[..|s| - 1], v);
    } else {
      assert t[..|t| - 1] == s[..|s| - 1];
    }
  }

  lemma {:induction false} CountFull(s: seq<bool>)
    requires Count(s) == |s|
    ensures forall i :: 0 <= i < |s| ==> s[i]
    decreases |s|
  {
    if s != [] {
      var init := s[..|s| - 1];
      CountFull(init);
      forall i | 0 <= i < |s| ensures s[i] {
        if i < |s| - 1 {
          assert s[i] == init[i];
        }
      }
    }
  }

  /** Settled nodes keep their distance and predecessor through a relaxation round. */
  lemma SettledUnchanged(adj: Adjacency, start: nat, dist: Dist, prev: Prev, used: seq<bool>, v: nat,
                         dist': Dist, prev': Prev, a: nat)
    requires Inv(adj, start, dist, prev, used) && PositiveWeights(adj)
    requires Selected(dist, used, v) && v >= 0
    requires RelaxOutcome(adj, v, dist, prev, dist', prev')
    requires a < |adj| && (used[a] || a == v)
    ensures dist'[a] == dist[a] && prev'[a] == prev[a]
  {
    assert dist[v].value >= 0;
    if a != v {
      assert dist[a].value <= dist[v].value;
    }
  }

  lemma Step(adj: Adjacency, start: nat, dist: Dist, prev: Prev, used: seq<bool>, v: int,
             dist': Dist, prev': Prev)
    requires Inv(adj, start, dist, prev, used) && PositiveWeights(adj)
    requires Selected(dist, used, v) && v >= 0
    requires RelaxOutcome(adj, v, dist, prev, dist', prev')
    ensures Inv(adj, start, dist', prev', used[v := true])
  {
    var used' := used[v := true];
    forall a | 0 <= a < |adj| && used'[a] ensures dist'[a] == dist[a] && prev'[a] == prev[a] {
      SettledUnchanged(adj, start, dist, prev, used, v, dist', prev', a);
    }
    StepStart(adj, start, dist, prev, used, v, dist', prev');
    StepSettledFirst(adj, start, dist, prev, used, v, dist', prev');
    StepRelaxedOut(adj, start, dist, prev, used, v, dist', prev');
    StepLinks(adj, start, dist, prev, used, v, dist', prev');
  }

  lemma StepStart(adj: Adjacency, start: nat, dist: Dist, prev: Prev, used: seq<bool>, v: int,
                  dist': Dist, prev': Prev)
    requires Inv(adj, start, dist, prev, used) && PositiveWeights(adj)
    requires Selected(dist, used, v) && v >= 0
    requires RelaxOutcome(adj, v, dist, prev, dist', prev')
    ensures dist'[start] == Some(0) && prev'[start].None? && NonNegative(dist')
  {
    assert dist[v].value >= 0;
    forall x | 0 <= x < |dist'| && dist'[x].Some? ensures dist'[x].value >= 0 {
      if !(dist'[x] == dist[x] && prev'[x] == prev[x]) {
        assert Lowered(adj, v, dist, dist', prev', x);
      }
    }
  }

  lemma StepSettledFirst(adj: Adjacency, start: nat, dist: Dist, prev: Prev, used: seq<bool>, v: int,
                         dist': Dist, prev': Prev)
    requires Inv(adj, start, dist, prev, used) && PositiveWeights(adj)
    requires Selected(dist, used, v) && v >= 0
    requires RelaxOutcome(adj, v, dist, prev, dist', prev')
    requires forall a :: 0 <= a < |adj| && used[v := true][a] ==> dist'[a] == dist[a] && prev'[a] == prev[a]
    ensures SettledFirst(dist', used[v := true])
  {
    var used' := used[v := true];
    forall a, x | 0 <= a < |used'| && 0 <= x < |used'| && used'[a] && !used'[x] && dist'[x].Some?
      ensures dist'[a].value <= dist'[x].value
    {
      assert dist'[a] == dist[a];
      assert a == v || dist[a].value <= dist[v].value;
      if dist'[x] == dist[x] && prev'[x] == prev[x] {
      } else {
        assert Lowered(adj, v, dist, dist', prev', x);
      }
    }
  }

  lemma StepRelaxedOut(adj: Adjacency, start: nat, dist: Dist, prev: Prev, used: seq<bool>, v: int,
                       dist': Dist, prev': Prev)
    requires Inv(adj, start, dist, prev, used) && PositiveWeights(adj)
    requires Selected(dist, used, v) && v >= 0
    requires RelaxOutcome(adj, v, dist, prev, dist', prev')
    requires forall a :: 0 <= a < |adj| && used[v := true][a] ==> dist'[a] == dist[a] && prev'[a] == prev[a]
    ensures RelaxedOut(adj, dist', used[v := true])
  {
    var used' := used[v := true];
    forall a, k | 0 <= a < |adj| && used'[a] && 0 <= k < |adj[a]|
      ensures dist'[a].Some? && dist'[adj[a][k].to].Some? && dist'[adj[a][k].to].value <= dist'[a].value + adj[a][k].w
    {
      var b := adj[a][k].to;
      assert dist'[a] == dist[a];
      if a != v {
        if !(dist'[b] == dist[b] && prev'[b] == prev[b]) {
          assert Lowered(adj, v, dist, dist', prev', b);
        }
      }
    }
  }

  lemma StepLinks(adj: Adjacency, start: nat, dist: Dist, prev: Prev, used: seq<bool>, v: int,
                  dist': Dist, prev': Prev)
    requires Inv(adj, start, dist, prev, used) && PositiveWeights(adj)
    requires Selected(dist, used, v) && v >= 0
    requires RelaxOutcome(adj, v, dist, prev, dist', prev')
    requires forall a :: 0 <= a < |adj| && used[v := true][a] ==> dist'[a] == dist[a] && prev'[a] == prev[a]
    ensures Links(adj, dist', prev') && PrevSettled(prev', used[v := true]) && Reached(start, dist', prev')
  {
    forall x | 0 <= x < |prev'| && prev'[x].Some? ensures LinkOk(adj, dist', prev', used[v := true], x) {
      StepLink(adj, dist, prev, used, v, dist', prev', x);
    }
    forall x | 0 <= x < |dist'| && dist'[x].Some? && x != start ensures prev'[x].Some? {
      if !(dist'[x] == dist[x] && prev'[x] == prev[x]) {
        assert Lowered(adj, v, dist, dist', prev', x);
      }
    }
  }

  ghost predicate LinkOk(adj: Adjacency, dist: Dist, prev: Prev, used: seq<bool>, x: nat)
    requires |dist| == |adj| && |prev| == |adj| && |used| == |adj| && x < |adj| && prev[x].Some?
  {
    prev[x].value < |adj| && used[prev[x].value] && dist[x].Some? && dist[prev[x].value].Some? &&
    Arc(x, dist[x].value - dist[prev[x].value].value) in adj[prev[x].value]
  }

  lemma StepLink(adj: Adjacency, dist: Dist, prev: Prev, used: seq<bool>, v: nat,
                 dist': Dist, prev': Prev, x: nat)
    requires |dist| == |adj| && |prev| == |adj| && |used| == |adj| && |dist'| == |adj| && |prev'| == |adj|
    requires v < |adj| && dist[v].Some? && x < |adj| && prev'[x].Some?
    requires Links(adj, dist, prev) && PrevSettled(prev, used)
    requires forall a :: 0 <= a < |adj| && used[v := true][a] ==> dist'[a] == dist[a] && prev'[a] == prev[a]
    requires (dist'[x] == dist[x] && prev'[x] == prev[x]) || Lowered(adj, v, dist, dist', prev', x)
    ensures LinkOk(adj, dist', prev', used[v := true], x)
  {
    var used' := used[v := true];
    if dist'[x] == dist[x] && prev'[x] == prev[x] {
      var p := prev[x].value;
      assert p < |adj| && used[p];
      assert used'[p];
      assert dist'[p] == dist[p];
      assert Arc(x, dist[x].value - dist[p].value) in adj[p];
    } else {
      assert used'[v];
      assert dist'[v] == dist[v];
    }
  }

  /** At the end every walk from the start costs at least the distance of its last node. */
  lemma Optimality(adj: Adjacency, start: nat, dist: Dist, prev: Prev, used: seq<bool>)
    requires Inv(adj, start, dist, prev, used) && Complete(dist, used)
    ensures Optimal(adj, start, dist)
  {
    forall nodes, ws | IsWalk(adj, nodes, ws) && nodes[0] == start && nodes[|nodes| - 1] < |adj|
      ensures dist[nodes[|nodes| - 1]].Some? && dist[nodes[|nodes| - 1]].value <= Sum(ws)
    {
      WalkBound(adj, start, dist, prev, used, nodes, ws);
    }
  }

  lemma {:induction false} WalkBound(adj: Adjacency, start: nat, dist: Dist, prev: Prev, used: seq<bool>,
                                     nodes: seq<nat>, ws: seq<int>)
    requires Inv(adj, start, dist, prev, used) && Complete(dist, used)
    requires IsWalk(adj, nodes, ws) && nodes[0] == start
    ensures nodes[|nodes| - 1] < |adj|
    ensures dist[nodes[|nodes| - 1]].Some? && dist[nodes[|nodes| - 1]].value <= Sum(ws)
    decreases |ws|
  {
    if ws != [] {
      var init := nodes[..|nodes| - 1];
      WalkBound(adj, start, dist, prev, used, init, ws[..|ws| - 1]);
      var y := nodes[|nodes| - 2];
      assert init[|init| - 1] == y;
      var arc := Arc(nodes[|nodes| - 1], ws[|ws| - 1]);
      assert used[y];
      var k :| 0 <= k < |adj[y]| && adj[y][k] == arc;
    }
  }

  // ---------------------------------------------------------------------------------------
  // reconstructPath
  // ---------------------------------------------------------------------------------------

  /** Predecessors climb to strictly smaller distances, so following them ends. */
  ghost predicate Descending(adj: Adjacency, dist: Dist, prev: Prev)
  {
    |dist| == |adj| && |prev| == |adj| && NonNegative(dist) && PositiveWeights(adj) && Links(adj, dist, prev)
  }

  function Height(dist: Dist, x: nat): nat
    requires NonNegative(dist)
  {
    if x < |dist| && dist[x].Some? then dist[x].value + 1 else 0
  }

  lemma PrevLower(adj: Adjacency, dist: Dist, prev: Prev, x: nat)
    requires Descending(adj, dist, prev) && x < |prev| && prev[x].Some?
    ensures Height(dist, prev[x].value) < Height(dist, x)
  {
    var p := prev[x].value;
    var arc := Arc(x, dist[x].value - dist[p].value);
    var k :| 0 <= k < |adj[p]| && adj[p][k] == arc;
  }

  /** The nodes from the root of x's predecessor chain (or the start, where it stops) to x. */
  ghost function Chain(adj: Adjacency, dist: Dist, prev: Prev, start: nat, x: nat): (c: seq<nat>)
    requires Descending(adj, dist, prev) && x < |prev|
    ensures |c| >= 1 && c[|c| - 1] == x
    ensures forall i :: 0 <= i < |c| ==> c[i] < |prev|
    decreases Height(dist, x)
  {
    if x == start || prev[x].None? then [x]
    else
      PrevLower(adj, dist, prev, x);
      Chain(adj, dist, prev, start, prev[x].value) + [x]
  }

  /** reconstructPath's result: the chain when it reaches the start, [] otherwise. */
  ghost function PathTo(adj: Adjacency, dist: Dist, prev: Prev, start: nat, goal: nat): seq<nat>
    requires Descending(adj, dist, prev) && goal < |prev|
  {
    var c := Chain(adj, dist, prev, start, goal);
    if c[0] == start then c else []
  }

  /** reconstructPath: push goal and its predecessors until the start or a null, reverse, check. */
  method ReconstructPath(prev: Prev, start: nat, goal: nat, ghost adj: Adjacency, ghost dist: Dist)
    returns (path: seq<nat>)
    requires Descending(adj, dist, prev) && goal < |prev|
    ensures path == PathTo(adj, dist, prev, start, goal)
  {
    var back: seq<nat> := [];
    var cur: Option<nat> := Some(goal);
    while cur.Some?
      invariant cur.Some? ==>
        (cur.value < |prev| &&
         Chain(adj, dist, prev, start, goal) == Chain(adj, dist, prev, start, cur.value) + Reversed(back))
      invariant cur.None? ==> Chain(adj, dist, prev, start, goal) == Reversed(back)
      decreases if cur.Some? then Height(dist, cur.value) + 1 else 0
    {
      var x := cur.value;
      ReversedSnoc(back, x);
      back := back + [x];
      if x == start {
        assert Chain(adj, dist, prev, start, goal) == Reversed(back);
        break;
      }
      if prev[x].Some? {
        PrevLower(adj, dist, prev, x);
        assert Chain(adj, dist, prev, start, x) == Chain(adj, dist, prev, start, prev[x].value) + [x];
      }
      cur := prev[x];
    }
    path := Reversed(back);
    if path[0] != start {
      path := [];
    }
  }

  // ---------------------------------------------------------------------------------------
  // Properties
  // ---------------------------------------------------------------------------------------

  /** The weights of the chain's steps, read off the distances. */
  ghost function ChainWeights(adj: Adjacency, dist: Dist, prev: Prev, start: nat, x: nat): (ws: seq<int>)
    requires Descending(adj, dist, prev) && x < |prev|
    ensures |ws| + 1 == |Chain(adj, dist, prev, start, x)|
    decreases Height(dist, x)
  {
    if x == start || prev[x].None? then []
    else
      PrevLower(adj, dist, prev, x);
      var p := prev[x].value;
      ChainWeights(adj, dist, prev, start, p) + [dist[x].value - dist[p].value]
  }

  /**
   * From a shortest-path tree, every node at a finite distance is reached by its chain: a walk
   * from the start whose weights sum to the distance.
   */
  lemma {:induction false} ChainIsShortestWalk(adj: Adjacency, start: nat, dist: Dist, prev: Prev, x: nat)
    requires ShortestPathTree(adj, start, dist, prev) && PositiveWeights(adj)
    requires x < |adj| && dist[x].Some?
    ensures var c := Chain(adj, dist, prev, start, x);
      var ws := ChainWeights(adj, dist, prev, start, x);
      c[0] == start && IsWalk(adj, c, ws) && Sum(ws) == dist[x].value
    decreases Height(dist, x)
  {
    if x != start {
      var p := prev[x].value;
      PrevLower(adj, dist, prev, x);
      ChainIsShortestWalk(adj, start, dist, prev, p);
      var c := Chain(adj, dist, prev, start, x);
      var ws := ChainWeights(adj, dist, prev, start, x);
      assert c[..|c| - 1] == Chain(adj, dist, prev, start, p);
      assert ws[..|ws| - 1] == ChainWeights(adj, dist, prev, start, p);
    }
  }

  /**
   * reconstructPath on dijkstraWithPrev's result: for a reachable goal, a walk from the start
   * to the goal costing exactly the goal's distance, so no walk is cheaper; for an unreachable
   * goal, [].
   */
  lemma ReconstructedPathIsShortest(adj: Adjacency, start: nat, dist: Dist, prev: Prev, goal: nat)
    requires ShortestPathTree(adj, start, dist, prev) && PositiveWeights(adj) && goal < |adj|
    ensures dist[goal].None? ==> PathTo(adj, dist, prev, start, goal) == []
    ensures dist[goal].Some? ==>
      var p := PathTo(adj, dist, prev, start, goal);
      var ws := ChainWeights(adj, dist, prev, start, goal);
      p != [] && p[0] == start && p[|p| - 1] == goal && IsWalk(adj, p, ws) && Sum(ws) == dist[goal].value &&
      (forall nodes, ws2 :: IsWalk(adj, nodes, ws2) && nodes[0] == start && nodes[|nodes| - 1] == goal ==>
         Sum(ws) <= Sum(ws2))
  {
    if dist[goal].Some? {
      ChainIsShortestWalk(adj, start, dist, prev, goal);
    } else {
      assert goal != start;
    }
  }
}
