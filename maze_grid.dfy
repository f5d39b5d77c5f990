/**
 * The Stack Maze board (pages/StackMazePage.jsx): a square grid of 0 (floor) and 1 (wall),
 * breadth-first reachability from the top-left corner (hasPath, reachableCells), star placement
 * and solvable maze generation. A cell's "r,c" key string is modelled by the cell itself.
 */
module MazeGrid {
  import opened Seqs

  datatype Cell = Cell(r: int, c: int)

  type Grid = seq<seq<int>>

  /** makeMaze builds size x size grids: every row is as long as the grid is tall. */
  predicate Square(grid: Grid)
  {
    forall r :: 0 <= r < |grid| ==> |grid[r]| == |grid|
  }

  predicate InBounds(n: int, x: Cell)
  {
    0 <= x.r < n && 0 <= x.c < n
  }

  /** A cell the robot may enter: inside the grid and not a wall. */
  predicate Open(grid: Grid, x: Cell)
    requires Square(grid)
  {
    InBounds(|grid|, x) && grid[x.r][x.c] != 1
  }

  /** One entry of DIRS: a key and its row and column offsets. */
  datatype Dir = Dir(key: string, dr: int, dc: int)

  const Dirs: seq<Dir> := [Dir("U", -1, 0), Dir("D", 1, 0), Dir("L", 0, -1), Dir("R", 0, 1)]

  function Move(x: Cell, d: Dir): Cell
  {
    Cell(x.r + d.dr, x.c + d.dc)
  }

  /** The four cells one step away, in the order up, down, left, right. */
  function Neighbours(x: Cell): (ns: seq<Cell>)
    ensures |ns| == 4 && forall k :: 0 <= k < 4 ==> ns[k] == Move(x, Dirs[k])
  {
    [Move(x, Dirs[0]), Move(x, Dirs[1]), Move(x, Dirs[2]), Move(x, Dirs[3])]
  }

  /** b is one step up, down, left or right of a. */
  predicate Adjacent(a: Cell, b: Cell)
  {
    b in Neighbours(a)
  }

  const Start: Cell := Cell(0, 0)

  function Goal(n: int): Cell
  {
    Cell(n - 1, n - 1)
  }

  // ---------------------------------------------------------------------------------------
  // Reachability
  // ---------------------------------------------------------------------------------------

  /** A walk from the start: every later cell is an open neighbour of the one before it. */
  ghost predicate MazeWalk(grid: Grid, w: seq<Cell>)
    requires Square(grid)
  {
    |w| >= 1 && w[0] == Start &&
    forall i :: 0 < i < |w| ==> Adjacent(w[i - 1], w[i]) && Open(grid, w[i])
  }

  /** The start is reachable whatever it holds; other cells through open 4-neighbour steps. */
  ghost predicate Reachable(grid: Grid, x: Cell)
    requires Square(grid)
  {
    exists w :: MazeWalk(grid, w) && w[|w| - 1] == x
  }

  /** Every cell the search can ever see. */
  ghost function Universe(n: int): set<Cell>
  {
    (set r: int, c: int | 0 <= r < n && 0 <= c < n :: Cell(r, c)) + {Start}
  }

  /** The set reachableCells returns. */
  ghost function ReachSet(grid: Grid): set<Cell>
    requires Square(grid)
  {
    set x | x in Universe(|grid|) && Reachable(grid, x)
  }

  lemma InUniverse(n: int, x: Cell)
    requires InBounds(n, x)
    ensures x in Universe(n)
  {
    assert x == Cell(x.r, x.c);
  }

  lemma WalkExtends(grid: Grid, w: seq<Cell>, y: Cell)
    requires Square(grid) && MazeWalk(grid, w) && Adjacent(w[|w| - 1], y) && Open(grid, y)
    ensures MazeWalk(grid, w + [y])
  {
    var w' := w + [y];
    forall i | 0 < i < |w'| ensures Adjacent(w'[i - 1], w'[i]) && Open(grid, w'[i]) {
      if i < |w| {
        assert w'[i] == w[i] && w'[i - 1] == w[i - 1];
      }
    }
  }

  // ---------------------------------------------------------------------------------------
  // The breadth-first search
  // ---------------------------------------------------------------------------------------

  /** Every open neighbour of x has been seen. */
  ghost predicate Expanded(grid: Grid, seen: set<Cell>, x: Cell)
    requires Square(grid)
  {
    forall y :: Adjacent(x, y) && Open(grid, y) ==> y in seen
  }

  /** Each seen cell carries a walk from the start that ends at it. */
  ghost predicate Witnessed(grid: Grid, seen: set<Cell>, walks: map<Cell, seq<Cell>>)
    requires Square(grid)
  {
    forall x :: x in seen ==> x in walks && MazeWalk(grid, walks[x]) && walks[x][|walks[x]| - 1] == x
  }

  /** The open neighbours of cur. */
  ghost function OpenAround(grid: Grid, cur: Cell): set<Cell>
    requires Square(grid)
  {
    set y | y in Neighbours(cur) && Open(grid, y)
  }

  /** The cells seen since seen0 sit, in some order, behind q0's old entries in q. */
  ghost predicate QueuedSince(seen0: set<Cell>, q0: seq<Cell>, seen: set<Cell>, q: seq<Cell>)
  {
    |q| >= |q0| && q[..|q0|] == q0 &&
    (forall y :: y in seen && y !in seen0 ==> y in q[|q0|..]) &&
    (forall i :: |q0| <= i < |q| ==> q[i] in seen && q[i] !in seen0)
  }

  /** One direction of the loop: y is marked seen and queued when it is open and unseen. */
  method Visit(grid: Grid, ghost w: seq<Cell>, y: Cell, ghost seen0: set<Cell>, ghost q0: seq<Cell>,
               seen: set<Cell>, q: seq<Cell>, ghost walks: map<Cell, seq<Cell>>)
    returns (seen': set<Cell>, q': seq<Cell>, ghost walks': map<Cell, seq<Cell>>)
    requires Square(grid) && MazeWalk(grid, w) && Adjacent(w[|w| - 1], y)
    requires seen0 <= seen <= Universe(|grid|) && QueuedSince(seen0, q0, seen, q) && Witnessed(grid, seen, walks)
    ensures seen' == seen + (if Open(grid, y) then {y} else {}) && seen' <= Universe(|grid|)
    ensures QueuedSince(seen0, q0, seen', q') && Witnessed(grid, seen', walks')
  {
    seen', q', walks' := seen, q, walks;
    if InBounds(|grid|, y) && grid[y.r][y.c] != 1 && y !in seen {
      InUniverse(|grid|, y);
      WalkExtends(grid, w, y);
      assert (q + [y])[..|q0|] == q[..|q0|];
      assert (q + [y])[|q0|..] == q[|q0|..] + [y];
      seen' := seen + {y};
      q' := q + [y];
      walks' := walks[y := w + [y]];
    }
  }

  /**
   * The loop over the four directions: every open unseen neighbour is marked seen and queued.
   * The queue gains exactly the newly seen cells (in direction order).
   */
  method Expand(grid: Grid, cur: Cell, seen: set<Cell>, q: seq<Cell>, ghost walks: map<Cell, seq<Cell>>)
    returns (seen': set<Cell>, q': seq<Cell>, ghost walks': map<Cell, seq<Cell>>)
    requires Square(grid) && cur in seen && Witnessed(grid, seen, walks)
    requires seen <= Universe(|grid|)
    ensures seen' == seen + OpenAround(grid, cur) && seen' <= Universe(|grid|)
    ensures |q'| >= |q| && q'[..|q|] == q
    ensures forall y :: y in seen' && y !in seen ==> y in q'[|q|..]
    ensures forall i :: |q| <= i < |q'| ==> q'[i] in seen' && q'[i] !in seen
    ensures Witnessed(grid, seen', walks')
  {
    seen', q', walks' := seen, q, walks;
    ghost var w := walks[cur];
    var ns := Neighbours(cur);
    for k := 0 to 4
      invariant seen' == seen + (set y | y in ns[..k] && Open(grid, y))
      invariant seen' <= Universe(|grid|)
      invariant QueuedSince(seen, q, seen', q') && Witnessed(grid, seen', walks')
    {
      var y := Move(cur, Dirs[k]);
      assert y == ns[k];
      OpenPrefixStep(grid, ns, k);
      seen', q', walks' := Visit(grid, w, y, seen, q, seen', q', walks');
    }
    assert ns[..4] == ns;
  }

  /** The open cells among the first k + 1 directions: those among the first k, and the next one if open. */
  lemma OpenPrefixStep(grid: Grid, ns: seq<Cell>, k: nat)
    requires Square(grid) && k < |ns|
    ensures (set y | y in ns[..k + 1] && Open(grid, y))
         == (set y | y in ns[..k] && Open(grid, y)) + (if Open(grid, ns[k]) then {ns[k]} else {})
  {
    assert ns[..k + 1] == ns[..k] + [ns[k]];
  }

  lemma WalkPrefix(grid: Grid, w: seq<Cell>)
    requires Square(grid) && MazeWalk(grid, w) && |w| > 1
    ensures MazeWalk(grid, w[..|w| - 1])
  {
    var init := w[..|w| - 1];
    forall i | 0 < i < |init| ensures Adjacent(init[i - 1], init[i]) && Open(grid, init[i]) {
      assert init[i] == w[i] && init[i - 1] == w[i - 1];
    }
  }

  /** A set that holds the start and is closed under open steps holds the end of every walk. */
  lemma {:induction false} ClosedHoldsWalk(grid: Grid, seen: set<Cell>, w: seq<Cell>)
    requires Square(grid) && Start in seen && MazeWalk(grid, w)
    requires forall x :: x in seen ==> Expanded(grid, seen, x)
    ensures w[|w| - 1] in seen
    decreases |w|
  {
    if |w| > 1 {
      var init := w[..|w| - 1];
      WalkPrefix(grid, w);
      ClosedHoldsWalk(grid, seen, init);
      assert Adjacent(w[|w| - 2], w[|w| - 1]) && Open(grid, w[|w| - 1]);
      assert Expanded(grid, seen, w[|w| - 2]);
    }
  }

  /**
   * Every seen cell is still queued or already expanded; when the search stops at the goal,
   * the goal has not been expanded yet.
   */
  ghost predicate Frontier(grid: Grid, seen: set<Cell>, q: seq<Cell>, stopAtGoal: bool)
    requires Square(grid)
  {
    (forall i :: 0 <= i < |q| ==> q[i] in seen) &&
    (forall x :: x in seen ==> x in q || (Expanded(grid, seen, x) && (!stopAtGoal || x != Goal(|grid|))))
  }

  /** Dequeuing cur and expanding it keeps the frontier, and shrinks the queue if nothing is new. */
  lemma FrontierStep(grid: Grid, seen: set<Cell>, q: seq<Cell>, seen': set<Cell>, q': seq<Cell>, stopAtGoal: bool)
    requires Square(grid) && q != [] && Frontier(grid, seen, q, stopAtGoal)
    requires stopAtGoal ==> q[0] != Goal(|grid|)
    requires seen' == seen + OpenAround(grid, q[0])
    requires |q'| >= |q| - 1 && q'[..|q| - 1] == q[1..]
    requires forall y :: y in seen' && y !in seen ==> y in q'[|q| - 1..]
    requires forall i :: |q| - 1 <= i < |q'| ==> q'[i] in seen' && q'[i] !in seen
    ensures Frontier(grid, seen', q', stopAtGoal)
    ensures seen' == seen ==> |q'| < |q|
  {
    var cur := q[0];
    forall i | 0 <= i < |q'| ensures q'[i] in seen' {
      if i < |q| - 1 {
        assert q'[i] == q[i + 1];
      }
    }
    forall x | x in seen' ensures x in q' || (Expanded(grid, seen', x) && (!stopAtGoal || x != Goal(|grid|))) {
      if x !in seen {
        assert x in q'[|q| - 1..];
      } else if x in q && x != cur {
        var i :| 0 <= i < |q| && q[i] == x;
        assert q'[i - 1] == x;
      }
    }
    if |q'| >= |q| {
      var y := q'[|q| - 1];
      assert y in seen' && y !in seen;
    }
  }

  /** At the end of a search the seen set is exactly what a walk from the start can reach. */
  lemma SearchComplete(grid: Grid, seen: set<Cell>, walks: map<Cell, seq<Cell>>, stopAtGoal: bool)
    requires Square(grid) && Start in seen && Frontier(grid, seen, [], stopAtGoal) && Witnessed(grid, seen, walks)
    ensures forall x :: x in seen <==> Reachable(grid, x)
    ensures stopAtGoal ==> !Reachable(grid, Goal(|grid|))
  {
    forall x ensures x in seen <==> Reachable(grid, x) {
      if x in seen {
        assert MazeWalk(grid, walks[x]);
      }
      if Reachable(grid, x) {
        var w :| MazeWalk(grid, w) && w[|w| - 1] == x;
        ClosedHoldsWalk(grid, seen, w);
      }
    }
  }

  /** One round of the search loop: the front cell is dequeued and expanded. */
  method SearchStep(grid: Grid, seen: set<Cell>, q: seq<Cell>, ghost walks: map<Cell, seq<Cell>>, stopAtGoal: bool)
    returns (seen': set<Cell>, q': seq<Cell>, ghost walks': map<Cell, seq<Cell>>)
    requires Square(grid) && q != [] && Start in seen && seen <= Universe(|grid|)
    requires Frontier(grid, seen, q, stopAtGoal) && Witnessed(grid, seen, walks)
    requires stopAtGoal ==> q[0] != Goal(|grid|)
    ensures Start in seen' && seen' <= Universe(|grid|)
    ensures Frontier(grid, seen', q', stopAtGoal) && Witnessed(grid, seen', walks')
    ensures Universe(|grid|) - seen' < Universe(|grid|) - seen || (seen' == seen && |q'| < |q|)
  {
    seen', q', walks' := Expand(grid, q[0], seen, q[1..], walks);
    FrontierStep(grid, seen, q, seen', q', stopAtGoal);
    if seen' != seen {
      var y :| y in seen' && y !in seen;
      assert y in Universe(|grid|) - seen;
    }
  }

  /** hasPath: breadth-first search from the corner, answering as soon as the goal is dequeued. */
  method HasPath(grid: Grid) returns (found: bool)
    requires Square(grid)
    ensures found <==> Reachable(grid, Goal(|grid|))
  {
    var n := |grid|;
    var q := [Start];
    var seen := {Start};
    ghost var walks := map[Start := [Start]];
    assert MazeWalk(grid, [Start]);
    while |q| > 0
      invariant Start in seen && seen <= Universe(n)
      invariant Frontier(grid, seen, q, true)
      invariant Witnessed(grid, seen, walks)
      decreases Universe(n) - seen, |q|
    {
      var cur := q[0];
      if cur == Goal(n) {
        assert MazeWalk(grid, walks[cur]);
        return true;
      }
      seen, q, walks := SearchStep(grid, seen, q, walks, true);
    }
    SearchComplete(grid, seen, walks, true);
    return false;
  }

  /** reachableCells: the same search run to the end; the seen set is the result. */
  method ReachableCells(grid: Grid) returns (seen: set<Cell>)
    requires Square(grid)
    ensures seen == ReachSet(grid)
    ensures forall x :: x in seen <==> Reachable(grid, x)
  {
    var n := |grid|;
    var q := [Start];
    seen := {Start};
    ghost var walks := map[Start := [Start]];
    assert MazeWalk(grid, [Start]);
    while |q| > 0
      invariant Start in seen && seen <= Universe(n)
      invariant Frontier(grid, seen, q, false)
      invariant Witnessed(grid, seen, walks)
      decreases Universe(n) - seen, |q|
    {
      seen, q, walks := SearchStep(grid, seen, q, walks, false);
    }
    SearchComplete(grid, seen, walks, false);
    SeenIsReachSet(grid, seen);
  }

  /** A set of cells holding exactly the reachable ones is ReachSet. */
  lemma SeenIsReachSet(grid: Grid, seen: set<Cell>)
    requires Square(grid) && seen <= Universe(|grid|)
    requires forall x :: x in seen <==> Reachable(grid, x)
    ensures seen == ReachSet(grid)
  {
  }

  // ---------------------------------------------------------------------------------------
  // placeStars
  // ---------------------------------------------------------------------------------------

  /** placeStars' filter for one cell: a floor cell, neither corner, in the reachable set. */
  predicate StarCandidate(grid: Grid, reach: set<Cell>, x: Cell)
    requires Square(grid)
  {
    InBounds(|grid|, x) && grid[x.r][x.c] != 1 && x != Start && x != Goal(|grid|) && x in reach
  }

  /** The candidates of row r among columns 0 .. c - 1, left to right. */
  function RowCandidates(grid: Grid, reach: set<Cell>, r: int, c: int): (cs: seq<Cell>)
    requires Square(grid) && 0 <= r < |grid| && 0 <= c <= |grid|
    ensures forall y :: y in cs <==> y.r == r && 0 <= y.c < c && StarCandidate(grid, reach, y)
    decreases c
  {
    if c == 0 then []
    else
      RowCandidates(grid, reach, r, c - 1) +
      (if StarCandidate(grid, reach, Cell(r, c - 1)) then [Cell(r, c - 1)] else [])
  }

  /** The candidates of rows 0 .. r - 1, row by row: exactly the cells above row r that pass the filter. */
  function CandidatesBefore(grid: Grid, reach: set<Cell>, r: int): (cs: seq<Cell>)
    requires Square(grid) && 0 <= r <= |grid|
    ensures forall y :: y in cs <==> y.r < r && StarCandidate(grid, reach, y)
    decreases r
  {
    if r == 0 then [] else CandidatesBefore(grid, reach, r - 1) + RowCandidates(grid, reach, r - 1, |grid|)
  }

  /** The inner loop of placeStars' scan: row r, column by column. */
  method ScanRow(grid: Grid, reach: set<Cell>, r: int, cands: seq<Cell>) returns (cands': seq<Cell>)
    requires Square(grid) && 0 <= r < |grid|
    ensures cands' == cands + RowCandidates(grid, reach, r, |grid|)
  {
    var n := |grid|;
    cands' := cands;
    for c := 0 to n
      invariant cands' == cands + RowCandidates(grid, reach, r, c)
    {
      cands' := ScanCell(grid, reach, r, c, cands, cands');
    }
  }

  /** One pass of ScanRow's loop: column c is skipped or appended. */
  method ScanCell(grid: Grid, reach: set<Cell>, r: int, c: int, cands: seq<Cell>, acc: seq<Cell>)
    returns (acc': seq<Cell>)
    requires Square(grid) && 0 <= r < |grid| && 0 <= c < |grid|
    requires acc == cands + RowCandidates(grid, reach, r, c)
    ensures acc' == cands + RowCandidates(grid, reach, r, c + 1)
  {
    var n := |grid|;
    var skip := grid[r][c] == 1 || (r == 0 && c == 0) || (r == n - 1 && c == n - 1) || Cell(r, c) !in reach;
    CandidateStep(grid, reach, r, c, skip, cands);
    acc' := acc;
    if !skip {
      acc' := acc + [Cell(r, c)];
    }
  }

  /** One column of the scan: the cell joins the row's candidates exactly when the scan does not skip it. */
  lemma CandidateStep(grid: Grid, reach: set<Cell>, r: int, c: int, skip: bool, acc: seq<Cell>)
    requires Square(grid) && 0 <= r < |grid| && 0 <= c < |grid|
    requires skip <==> grid[r][c] == 1 || (r == 0 && c == 0) || (r == |grid| - 1 && c == |grid| - 1) || Cell(r, c) !in reach
    ensures acc + RowCandidates(grid, reach, r, c + 1)
         == if skip then acc + RowCandidates(grid, reach, r, c) else acc + RowCandidates(grid, reach, r, c) + [Cell(r, c)]
  {
    assert StarCandidate(grid, reach, Cell(r, c)) == !skip;
    if !skip {
      assert RowCandidates(grid, reach, r, c + 1) == RowCandidates(grid, reach, r, c) + [Cell(r, c)];
    }
  }

  /** The two nested loops collecting the candidates. */
  method Candidates(grid: Grid, reach: set<Cell>) returns (cands: seq<Cell>)
    requires Square(grid)
    ensures cands == CandidatesBefore(grid, reach, |grid|)
  {
    cands := [];
    for r := 0 to |grid|
      invariant cands == CandidatesBefore(grid, reach, r)
    {
      cands := ScanRow(grid, reach, r, cands);
    }
  }

  function Min(a: int, b: int): int
  {
    if a < b then a else b
  }

  /** placeStars' result: the first min(count, #candidates) of the shuffled candidates. */
  ghost function Placed(grid: Grid, count: nat, random: int -> real): seq<Cell>
    requires Square(grid) && forall k :: 0.0 <= random(k) < 1.0
  {
    var cands := CandidatesBefore(grid, ReachSet(grid), |grid|);
    Shuffled(cands, random, |cands| - 1)[..Min(count, |cands|)]
  }

  method PlaceStars(grid: Grid, count: nat, random: int -> real) returns (stars: seq<Cell>)
    requires Square(grid) && forall k :: 0.0 <= random(k) < 1.0
    ensures stars == Placed(grid, count, random)
  {
    var reach := ReachableCells(grid);
    var cands := Candidates(grid, reach);
    stars := ShuffleAndTake(cands, count, random);
  }

  /** The candidates copied to an array, shuffled in place, and the first min(count, #candidates) taken. */
  method ShuffleAndTake(cands: seq<Cell>, count: nat, random: int -> real) returns (stars: seq<Cell>)
    requires forall k :: 0.0 <= random(k) < 1.0
    ensures stars == Shuffled(cands, random, |cands| - 1)[..Min(count, |cands|)]
  {
    var a := new Cell[|cands|](i requires 0 <= i < |cands| => cands[i]);
    assert a[..] == cands;
    Shuffle(a, random);
    stars := a[..Min(count, a.Length)];
  }

  /**
   * placeStars returns min(count, #candidates) stars, each on a reachable floor cell other than
   * the two corners.
   */
  lemma StarsOnReachableFloor(grid: Grid, count: nat, random: int -> real)
    requires Square(grid) && forall k :: 0.0 <= random(k) < 1.0
    ensures var cands := CandidatesBefore(grid, ReachSet(grid), |grid|);
      var stars := Placed(grid, count, random);
      |stars| == Min(count, |cands|) && multiset(stars) <= multiset(cands) &&
      forall x :: x in stars ==> Open(grid, x) && x != Start && x != Goal(|grid|) && Reachable(grid, x)
  {
    var cands := CandidatesBefore(grid, ReachSet(grid), |grid|);
    var sh := Shuffled(cands, random, |cands| - 1);
    var stars := Placed(grid, count, random);
    ShuffledPermutes(cands, random, |cands| - 1);
    assert sh == stars + sh[|stars|..];
    assert multiset(stars) <= multiset(sh);
    forall x | x in stars ensures Open(grid, x) && x != Start && x != Goal(|grid|) && Reachable(grid, x) {
      assert x in multiset(cands);
    }
  }

  // ---------------------------------------------------------------------------------------
  // makeMaze
  // ---------------------------------------------------------------------------------------

  function EmptyGrid(size: nat): (g: Grid)
    ensures |g| == size && Square(g)
    ensures forall r, c :: 0 <= r < size && 0 <= c < size ==> g[r][c] == 0
  {
    seq(size, _ => seq(size, _ => 0))
  }

  function SetCell(grid: Grid, x: Cell, v: int): (g: Grid)
    requires Square(grid) && InBounds(|grid|, x)
    ensures |g| == |grid| && Square(g)
  {
    grid[x.r := grid[x.r][x.c := v]]
  }

  /** `Math.floor(size * size * wallDensity)`, no walls below zero. */
  function WallCount(size: nat, wallDensity: real): nat
  {
    var w := ((size * size) as real * wallDensity).Floor;
    if w < 0 then 0 else w
  }

  /** The grid of attempt a after its first k random walls, pick(a, k) being the k-th draw. */
  function WithWalls(size: nat, pick: (nat, nat) -> Cell, a: nat, k: nat): (g: Grid)
    requires forall a', k' :: InBounds(size, pick(a', k'))
    ensures |g| == size && Square(g)
  {
    if k == 0 then EmptyGrid(size) else SetCell(WithWalls(size, pick, a, k - 1), pick(a, k - 1), 1)
  }

  /** The start, the goal and the cells beside them are made floor again. */
  function Cleared(grid: Grid): (g: Grid)
    requires Square(grid) && |grid| >= 1
    ensures |g| == |grid| && Square(g)
  {
    var n := |grid|;
    var g := SetCell(SetCell(grid, Start, 0), Goal(n), 0);
    if n >= 2 then
      SetCell(SetCell(SetCell(SetCell(g, Cell(0, 1), 0), Cell(1, 0), 0), Cell(n - 2, n - 1), 0), Cell(n - 1, n - 2), 0)
    else g
  }

  function Attempt(size: nat, wallDensity: real, pick: (nat, nat) -> Cell, a: nat): (g: Grid)
    requires size >= 1 && forall a', k' :: InBounds(size, pick(a', k'))
    ensures |g| == size && Square(g)
  {
    Cleared(WithWalls(size, pick, a, WallCount(size, wallDensity)))
  }

  /** Attempt a of makeMaze leaves the goal cut off from the start. */
  ghost predicate Unsolvable(size: nat, wallDensity: real, pick: (nat, nat) -> Cell, a: nat)
    requires size >= 1 && forall a', k' :: InBounds(size, pick(a', k'))
  {
    !Reachable(Attempt(size, wallDensity, pick, a), Goal(size))
  }

  /** makeMaze: up to 40 random attempts, the first solvable one kept, else the empty grid. */
  method MakeMaze(size: nat, wallDensity: real, pick: (nat, nat) -> Cell) returns (grid: Grid)
    requires size >= 1
    requires forall a, k :: InBounds(size, pick(a, k))
    ensures |grid| == size && Square(grid)
    ensures Reachable(grid, Goal(size))
    ensures (exists a :: 0 <= a < 40 && grid == Attempt(size, wallDensity, pick, a) &&
               forall b :: 0 <= b < a ==> Unsolvable(size, wallDensity, pick, b)) ||
            (grid == EmptyGrid(size) && forall b :: 0 <= b < 40 ==> Unsolvable(size, wallDensity, pick, b))
  {
    for attempt := 0 to 40
      invariant forall b :: 0 <= b < attempt ==> Unsolvable(size, wallDensity, pick, b)
    {
      var g := BuildAttempt(size, wallDensity, pick, attempt);
      var ok := HasPath(g);
      if ok {
        grid := g;
        assert 0 <= attempt < 40 && grid == Attempt(size, wallDensity, pick, attempt);
        return;
      }
      assert Unsolvable(size, wallDensity, pick, attempt);
    }
    grid := EmptyGrid(size);
    EmptyGridSolvable(size);
  }

  /** One attempt of makeMaze: scatter the walls, then clear the start, the goal and their corridor. */
  method BuildAttempt(size: nat, wallDensity: real, pick: (nat, nat) -> Cell, attempt: nat) returns (g: Grid)
    requires size >= 1
    requires forall a, k :: InBounds(size, pick(a, k))
    ensures g == Attempt(size, wallDensity, pick, attempt)
  {
    g := EmptyGrid(size);
    var wallCount := WallCount(size, wallDensity);
    for k := 0 to wallCount
      invariant g == WithWalls(size, pick, attempt, k)
    {
      g := SetCell(g, pick(attempt, k), 1);
    }
    g := SetCell(g, Start, 0);
    g := SetCell(g, Goal(size), 0);
    if size >= 2 {
      g := SetCell(g, Cell(0, 1), 0);
      g := SetCell(g, Cell(1, 0), 0);
      g := SetCell(g, Cell(size - 2, size - 1), 0);
      g := SetCell(g, Cell(size - 1, size - 2), 0);
    }
  }

  /** Along the top row, then down the last column. */
  function CornerWalk(n: nat): (w: seq<Cell>)
    requires n >= 1
    ensures |w| == 2 * n - 1
  {
    seq(2 * n - 1, i => if i < n then Cell(0, i) else Cell(i - n + 1, n - 1))
  }

  /** The fallback grid is solvable: the corner walk reaches the goal. */
  lemma EmptyGridSolvable(n: nat)
    requires n >= 1
    ensures Reachable(EmptyGrid(n), Goal(n))
  {
    var g := EmptyGrid(n);
    var w := CornerWalk(n);
    forall i | 0 < i < |w| ensures Adjacent(w[i - 1], w[i]) && Open(g, w[i]) {
      if i < n {
        assert w[i] == Move(w[i - 1], Dirs[3]);
      } else {
        assert w[i - 1] == Cell(i - n, n - 1);
        assert w[i] == Move(w[i - 1], Dirs[1]);
      }
    }
    assert MazeWalk(g, w);
  }
}
