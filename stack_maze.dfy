/**
 * The Stack Maze round (pages/StackMazePage.jsx): the player stacks direction keys, the robot
 * runs them top first, each executed move costs one energy, and walls or the border make it
 * crash in place. React state is a value here; each handler returns the next state.
 */
module StackMaze {
  import opened Wrappers
  import opened JavaStrings
  import opened Seqs
  import opened MazeGrid

  /** getConfig's row for a difficulty. */
  datatype Config = Config(
    size: nat, wallDensity: real, maxEnergy: int, stepMs: nat, maxStack: nat,
    fog: bool, fogRadius: nat, allowPreview: bool)

  /** getConfig: `(difficulty || "EASY").toUpperCase()`, HARD and MEDIUM rows, EASY otherwise. */
  function GetConfig(difficulty: Option<string>): (c: Config)
    ensures c.size >= 1 && c.maxStack > 0 && c.maxEnergy > 0
    ensures difficulty.Some? && ToUpper(difficulty.value) == "HARD" ==>
      c.size == 9 && c.maxEnergy == 18 && c.maxStack == 16 && c.fog && !c.allowPreview
    ensures difficulty.Some? && ToUpper(difficulty.value) == "MEDIUM" ==>
      c.size == 7 && c.maxEnergy == 22 && c.maxStack == 20 && c.fog && c.allowPreview
    ensures difficulty.None? || ToUpper(difficulty.value) !in {"HARD", "MEDIUM"} ==>
      c.size == 5 && c.maxEnergy == 28 && c.maxStack == 24 && !c.fog && c.allowPreview
  {
    var d := if difficulty.None? || difficulty.value == "" then "EASY" else ToUpper(difficulty.value);
    if d == "HARD" then Config(9, 0.30, 18, 260, 16, true, 1, false)
    else if d == "MEDIUM" then Config(7, 0.22, 22, 300, 20, true, 2, true)
    else Config(5, 0.12, 28, 330, 24, false, 99, true)
  }

  /** The star count compares the difficulty text as given, without upper-casing it. */
  function StarCount(difficulty: string): (k: nat)
    ensures 2 <= k <= 4
    ensures k == 4 <==> difficulty == "HARD"
    ensures k == 3 <==> difficulty == "MEDIUM"
  {
    if difficulty == "HARD" then 4 else if difficulty == "MEDIUM" then 3 else 2
  }

  /** `DIRS.find((x) => x.key === d)`. */
  function DirOf(key: string): (d: Option<Dir>)
    ensures d.Some? <==> key in {"U", "D", "L", "R"}
    ensures d.Some? ==> d.value in Dirs && d.value.key == key
  {
    if key == "U" then Some(Dirs[0])
    else if key == "D" then Some(Dirs[1])
    else if key == "L" then Some(Dirs[2])
    else if key == "R" then Some(Dirs[3])
    else None
  }

  // ---------------------------------------------------------------------------------------
  // simulatePath
  // ---------------------------------------------------------------------------------------

  /** simulatePath's result: the cells visited (start first), crashes, final cell, energy left. */
  datatype Outcome = Outcome(path: seq<Cell>, crashes: nat, endPos: Cell, energyLeft: int)

  /** Running the keys of exec in order from p with energy e. */
  function Simulate(grid: Grid, p: Cell, exec: seq<string>, e: int): Outcome
    requires Square(grid)
    decreases |exec|
  {
    if exec == [] || e <= 0 then Outcome([p], 0, p, e)
    else
      match DirOf(exec[0])
      case None => Simulate(grid, p, exec[1..], e)
      case Some(d) =>
        var crash := !Open(grid, Move(p, d));
        var next := if crash then p else Move(p, d);
        var rest := Simulate(grid, next, exec[1..], e - 1);
        Outcome([p] + rest.path, rest.crashes + (if crash then 1 else 0), rest.endPos, rest.energyLeft)
  }

  /** What the loop has produced so far, followed by the rest of the run. */
  function Join(path: seq<Cell>, crashes: nat, o: Outcome): Outcome
    requires |path| >= 1
  {
    Outcome(path[..|path| - 1] + o.path, crashes + o.crashes, o.endPos, o.energyLeft)
  }

  /** One executed key: the step it adds to the path and to the crash count. */
  lemma JoinStep(grid: Grid, path: seq<Cell>, crashes: nat, p: Cell, keys: seq<string>, e: int)
    requires Square(grid) && |path| >= 1 && path[|path| - 1] == p
    requires keys != [] && e > 0 && DirOf(keys[0]).Some?
    ensures var d := DirOf(keys[0]).value;
      var crash := !Open(grid, Move(p, d));
      var next := if crash then p else Move(p, d);
      Join(path, crashes, Simulate(grid, p, keys, e)) ==
      Join(path + [next], crashes + (if crash then 1 else 0), Simulate(grid, next, keys[1..], e - 1))
  {
    var d := DirOf(keys[0]).value;
    var crash := !Open(grid, Move(p, d));
    var next := if crash then p else Move(p, d);
    var rest := Simulate(grid, next, keys[1..], e - 1);
    assert Simulate(grid, p, keys, e).path == [p] + rest.path;
    var path' := path + [next];
    assert path'[..|path'| - 1] == path;
    assert path[..|path| - 1] + ([p] + rest.path) == path + rest.path;
  }

  /** simulatePath: the stack reversed (top first), one loop step per key while energy lasts. */
  method SimulatePath(grid: Grid, startPos: Cell, stack: seq<string>, energy: int) returns (o: Outcome)
    requires Square(grid)
    ensures o == Simulate(grid, startPos, Reversed(stack), energy)
  {
    var exec := Reversed(stack);
    var p := startPos;
    var e := energy;
    var crashes := 0;
    var path := [p];
    var i := 0;
    while i < |exec| && e > 0
      invariant 0 <= i <= |exec|
      invariant |path| >= 1 && path[|path| - 1] == p
      invariant Simulate(grid, startPos, exec, energy) == Join(path, crashes, Simulate(grid, p, exec[i..], e))
    {
      assert exec[i..][0] == exec[i] && exec[i..][1..] == exec[i + 1..];
      var d := DirOf(exec[i]);
      if d.None? {
        i := i + 1;
        continue;
      }
      JoinStep(grid, path, crashes, p, exec[i..], e);
      var next := Move(p, d.value);
      e := e - 1;
      if !Open(grid, next) {
        crashes := crashes + 1;
      } else {
        p := next;
      }
      path := path + [p];
      i := i + 1;
    }
    assert exec[i..] == [] || e <= 0;
    o := Outcome(path, crashes, p, e);
  }

  /** The number of keys in exec that name a direction. */
  function Known(exec: seq<string>): (k: nat)
    ensures k <= |exec|
  {
    if exec == [] then 0 else (if DirOf(exec[0]).Some? then 1 else 0) + Known(exec[1..])
  }

  /** The number of steps at which the path stays on the same cell. */
  function Stays(path: seq<Cell>): nat
  {
    if |path| <= 1 then 0 else (if path[1] == path[0] then 1 else 0) + Stays(path[1..])
  }

  /**
   * Energy accounting: every executed move costs one, unknown keys cost nothing, and the run stops
   * only when the keys or the energy run out.
   */
  lemma {:induction false} SimulateEnergy(grid: Grid, p: Cell, exec: seq<string>, e: int)
    requires Square(grid)
    ensures var o := Simulate(grid, p, exec, e);
      |o.path| >= 1 && o.path[0] == p && o.endPos == o.path[|o.path| - 1] &&
      o.energyLeft == e - (|o.path| - 1) &&
      |o.path| - 1 <= Known(exec) &&
      (e >= 0 ==> o.energyLeft >= 0) &&
      (o.energyLeft > 0 ==> |o.path| - 1 == Known(exec))
    decreases |exec|
  {
    if exec != [] && e > 0 {
      match DirOf(exec[0])
      case None => SimulateEnergy(grid, p, exec[1..], e);
      case Some(d) =>
        var next := if Open(grid, Move(p, d)) then Move(p, d) else p;
        SimulateEnergy(grid, next, exec[1..], e - 1);
    }
  }

  /**
   * Each step of the path either stays put or enters an open neighbour, and the crash count is
   * the number of steps that stay put.
   */
  lemma {:induction false} SimulateSteps(grid: Grid, p: Cell, exec: seq<string>, e: int)
    requires Square(grid)
    ensures var o := Simulate(grid, p, exec, e);
      |o.path| >= 1 && o.path[0] == p &&
      (forall i :: 0 < i < |o.path| ==>
        o.path[i] == o.path[i - 1] || (Adjacent(o.path[i - 1], o.path[i]) && Open(grid, o.path[i]))) &&
      o.crashes == Stays(o.path)
    decreases |exec|
  {
    if exec != [] && e > 0 {
      match DirOf(exec[0])
      case None => SimulateSteps(grid, p, exec[1..], e);
      case Some(d) =>
        var crash := !Open(grid, Move(p, d));
        var next := if crash then p else Move(p, d);
        SimulateSteps(grid, next, exec[1..], e - 1);
        var o := Simulate(grid, p, exec, e);
        var rest := Simulate(grid, next, exec[1..], e - 1);
        assert o.path == [p] + rest.path;
        assert o.path[1..] == rest.path;
        assert rest.path[0] == next;
        assert d in Dirs;
        assert Move(p, d) != p;
        assert Adjacent(p, Move(p, d)) by {
          assert Move(p, d) in Neighbours(p);
        }
        forall i | 0 < i < |o.path|
          ensures o.path[i] == o.path[i - 1] || (Adjacent(o.path[i - 1], o.path[i]) && Open(grid, o.path[i]))
        {
          if i > 1 {
            assert o.path[i] == rest.path[i - 1] && o.path[i - 1] == rest.path[i - 2];
          }
        }
    }
  }

  /** The robot never leaves the region reachable from the corner. */
  lemma {:induction false} SimulateStaysReachable(grid: Grid, p: Cell, exec: seq<string>, e: int)
    requires Square(grid) && Reachable(grid, p)
    ensures forall x :: x in Simulate(grid, p, exec, e).path ==> Reachable(grid, x)
    decreases |exec|
  {
    if exec != [] && e > 0 {
      match DirOf(exec[0])
      case None => SimulateStaysReachable(grid, p, exec[1..], e);
      case Some(d) =>
        var next := if Open(grid, Move(p, d)) then Move(p, d) else p;
        KeyStaysReachable(grid, p, d);
        SimulateStaysReachable(grid, next, exec[1..], e - 1);
        assert Simulate(grid, p, exec, e).path == [p] + Simulate(grid, next, exec[1..], e - 1).path;
    }
  }

  /** One key: the robot moves to an open neighbour or stays, and either way stays reachable. */
  lemma KeyStaysReachable(grid: Grid, p: Cell, d: Dir)
    requires Square(grid) && Reachable(grid, p) && d in Dirs
    ensures Reachable(grid, if Open(grid, Move(p, d)) then Move(p, d) else p)
  {
    if Open(grid, Move(p, d)) {
      var next := Move(p, d);
      var w :| MazeWalk(grid, w) && w[|w| - 1] == p;
      assert Move(p, d) in Neighbours(p);
      WalkExtends(grid, w, next);
      assert (w + [next])[|w + [next]| - 1] == next;
    }
  }

  // ---------------------------------------------------------------------------------------
  // The round: pushMove, popMove, stepOnce and the status effect
  // ---------------------------------------------------------------------------------------

  datatype Status = Playing | Won | Lost

  datatype Round = Round(
    grid: Grid, pos: Cell, stack: seq<string>, running: bool, status: Status,
    energy: int, crashes: nat, stars: seq<Cell>, collected: set<Cell>)

  /** pushMove: refused when over, while running, or at the stack limit (`maxStack || 20`). */
  function PushMove(g: Round, d: string, maxStack: nat): (r: Round)
    ensures g.status != Playing || g.running ==> r == g
    ensures |g.stack| >= (if maxStack == 0 then 20 else maxStack) ==> r == g
    ensures g.status == Playing && !g.running && |g.stack| < (if maxStack == 0 then 20 else maxStack) ==>
      r == g.(stack := g.stack + [d])
  {
    var limit := if maxStack == 0 then 20 else maxStack;
    if g.status != Playing || g.running then g
    else if |g.stack| >= limit then g
    else g.(stack := g.stack + [d])
  }

  /** popMove: drops the top key (an empty stack stays empty); refused when over or running. */
  function PopMove(g: Round): (r: Round)
    ensures g.status != Playing || g.running ==> r == g
    ensures g.status == Playing && !g.running && g.stack != [] ==> r == g.(stack := g.stack[..|g.stack| - 1])
    ensures g.status == Playing && !g.running && g.stack == [] ==> r == g
  {
    if g.status != Playing || g.running then g
    else if g.stack == [] then g
    else g.(stack := g.stack[..|g.stack| - 1])
  }

  /** The Run button, enabled while playing with a non-empty stack, flips running. */
  function ToggleRun(g: Round): (r: Round)
    ensures g.status == Playing && g.stack != [] ==> r == g.(running := !g.running)
    ensures g.status != Playing || g.stack == [] ==> r == g
  {
    if g.status != Playing || g.stack == [] then g else g.(running := !g.running)
  }

  /**
   * stepOnce: pop the top key, pay one energy and move, or crash in place. A key that is not a
   * direction leaves the target cell where the robot stands.
   */
  function StepOnce(g: Round): (r: Round)
    requires Square(g.grid)
    ensures g.stack == [] ==> r == g
    ensures g.stack != [] ==>
      r.stack == g.stack[..|g.stack| - 1] && r.energy == g.energy - 1 &&
      r.grid == g.grid && r.status == g.status && r.running == g.running
    ensures g.stack != [] ==>
      (r.pos == g.pos && r.crashes == g.crashes + 1) ||
      (r.pos != g.pos && Adjacent(g.pos, r.pos) && Open(g.grid, r.pos) && r.crashes == g.crashes) ||
      (r.pos == g.pos && r.crashes == g.crashes && DirOf(g.stack[|g.stack| - 1]).None?)
    ensures g.stack != [] && DirOf(g.stack[|g.stack| - 1]).Some? ==>
      var t := Move(g.pos, DirOf(g.stack[|g.stack| - 1]).value);
      (r.crashes == g.crashes + 1 <==> !Open(g.grid, t)) && r.pos == (if Open(g.grid, t) then t else g.pos)
    ensures g.stack != [] && DirOf(g.stack[|g.stack| - 1]).None? ==>
      r.pos == g.pos && (r.crashes == g.crashes + 1 <==> !Open(g.grid, g.pos))
  {
    if g.stack == [] then g
    else
      var key := g.stack[|g.stack| - 1];
      var next := g.stack[..|g.stack| - 1];
      var target := match DirOf(key) case Some(d) => Move(g.pos, d) case None => g.pos;
      if !Open(g.grid, target) then g.(stack := next, energy := g.energy - 1, crashes := g.crashes + 1)
      else
        DirMoves(g.pos, key);
        g.(stack := next, energy := g.energy - 1, pos := target)
  }

  lemma DirMoves(p: Cell, key: string)
    ensures DirOf(key).Some? ==> Move(p, DirOf(key).value) != p && Adjacent(p, Move(p, DirOf(key).value))
  {
    if DirOf(key).Some? {
      assert Move(p, DirOf(key).value) in Neighbours(p);
    }
  }

  /**
   * The status effect: collect a star under the robot, then win on the goal or lose with no
   * energy left; a finished round does not change.
   */
  function Settle(g: Round): (r: Round)
    ensures g.status != Playing ==> r == g
    ensures g.status == Playing ==>
      r.pos == g.pos && r.energy == g.energy && r.stack == g.stack &&
      r.collected == (if g.pos in g.stars then g.collected + {g.pos} else g.collected)
    ensures g.status == Playing ==>
      (r.status == Won <==> g.pos == Goal(|g.grid|)) &&
      (r.status == Lost <==> g.pos != Goal(|g.grid|) && g.energy <= 0) &&
      (r.status != Playing ==> !r.running)
  {
    if g.status != Playing then g
    else
      var got := if g.pos in g.stars && g.pos !in g.collected then g.collected + {g.pos} else g.collected;
      var h := g.(collected := got);
      if g.pos == Goal(|g.grid|) then h.(status := Won, running := false)
      else if g.energy <= 0 then h.(status := Lost, running := false)
      else h
  }

  /**
   * The preview predicts the run: with energy left and a direction key on top, the preview of
   * the whole stack is the current cell followed by the preview after one stepOnce.
   */
  lemma PreviewPredictsStep(g: Round)
    requires Square(g.grid) && g.stack != [] && g.energy > 0 && DirOf(g.stack[|g.stack| - 1]).Some?
    ensures var g' := StepOnce(g);
      var s := Simulate(g.grid, g.pos, Reversed(g.stack), g.energy);
      var s' := Simulate(g'.grid, g'.pos, Reversed(g'.stack), g'.energy);
      s.path == [g.pos] + s'.path && s.endPos == s'.endPos && s.energyLeft == s'.energyLeft &&
      s.crashes == s'.crashes + (g'.crashes - g.crashes)
  {
    var init := g.stack[..|g.stack| - 1];
    assert g.stack == init + [g.stack[|g.stack| - 1]];
    ReversedSnoc(init, g.stack[|g.stack| - 1]);
    var exec := Reversed(g.stack);
    assert exec[1..] == Reversed(init);
  }

  /** A robot on reachable ground stays on reachable ground. */
  lemma StepStaysReachable(g: Round)
    requires Square(g.grid) && Reachable(g.grid, g.pos)
    ensures Reachable(g.grid, StepOnce(g).pos)
  {
    var r := StepOnce(g);
    if r.pos != g.pos {
      var w :| MazeWalk(g.grid, w) && w[|w| - 1] == g.pos;
      WalkExtends(g.grid, w, r.pos);
      assert (w + [r.pos])[|w + [r.pos]| - 1] == r.pos;
    }
  }
}
