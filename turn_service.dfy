/**
 * Board movement for a turn (TurnService): the die roll, the step-by-step walk over the
 * directed board graph with its fork pause and landing effects, and the path choice that
 * resumes a walk paused at a fork. The die value is a parameter.
 */
module TurnService {
  import opened Wrappers
  import opened JavaStrings
  import opened GameModel
  import opened BoardGraphs
  import opened GameSessionService
  import opened SessionLifecycle

  /** What moveSteps reports: a finished walk, a pause at a fork, or a turn-ending landing. */
  datatype MoveStop =
    | Walked
    | AtFork(forkNodeId: string, remainingSteps: int, options: seq<string>)
    | TurnEnded

  // ---------------------------------------------------------------------------------------
  // Lookups and guards
  // ---------------------------------------------------------------------------------------

  /** requireSession then requirePlayer: the caller's position among the players, or the first failed check. */
  function Required(g: Game, sessionId: Option<string>, playerId: Option<string>): (r: Result<nat, ServiceError>)
    ensures r.Ok? <==> (!IsNullOrBlank(sessionId) && sessionId.value == g.session.id && !IsNullOrBlank(playerId) &&
      FindPlayer(g.players, playerId.value).Some? &&
      g.players[FindPlayer(g.players, playerId.value).value].sessionId == sessionId.value)
    ensures r.Ok? ==> (r.value < |g.players| && g.players[r.value].id == playerId.value &&
      g.players[r.value].sessionId == sessionId.value)
  {
    if IsNullOrBlank(sessionId) then Err(SessionIdRequired)
    else if sessionId.value != g.session.id then Err(SessionNotFound)
    else if IsNullOrBlank(playerId) then Err(PlayerIdRequired)
    else match FindPlayer(g.players, playerId.value)
      case None => Err(PlayerNotFound)
      case Some(k) => if g.players[k].sessionId != sessionId.value then Err(PlayerNotForSession) else Ok(k)
  }

  /** enforceMyTurn: the turn must be initialised and held by player k. */
  function MyTurn(g: Game, k: nat): (r: Option<ServiceError>)
    requires k < |g.players|
    ensures r.None? <==> 0 < g.session.currentTurnOrder && g.players[k].turnOrder == g.session.currentTurnOrder
  {
    if g.session.currentTurnOrder <= 0 then Some(TurnNotInitialized)
    else if g.players[k].turnOrder != g.session.currentTurnOrder then Some(NotYourTurn)
    else None
  }

  // ---------------------------------------------------------------------------------------
  // moveSteps and its landing effects
  // ---------------------------------------------------------------------------------------

  function WithPlayer(g: Game, k: nat, p: Player): (r: Game)
    requires k < |g.players|
  {
    g.(players := g.players[k := p])
  }

  /**
   * sendToJailForOneTurn: one turn to skip and, when the board has a jail, a stay there with the
   * node to come back to.
   */
  function Jailed(board: BoardGraph, p: Player, returnNodeId: Option<string>): Player
  {
    if IsNullOrBlank(board.jailNodeId) then p.(skipTurns := 1)
    else p.(jailReturnNodeId := returnNodeId, positionNodeId := board.jailNodeId, skipTurns := 1)
  }

  /** The node a player stands on: a null or blank position counts as START. */
  function StandingOn(board: BoardGraph, p: Player): string
  {
    if p.positionNodeId.None? || IsBlank(p.positionNodeId.value) then board.startNodeId else p.positionNodeId.value
  }

  /** The position written back at the top of each step: a null or blank one becomes START. */
  function Placed(board: BoardGraph, g: Game, k: nat): (r: Game)
    requires k < |g.players|
    ensures |r.players| == |g.players| && r.session == g.session && r.events == g.events
    ensures r.players[k].positionNodeId == Some(StandingOn(board, g.players[k]))
  {
    var p := g.players[k];
    if p.positionNodeId.None? || IsBlank(p.positionNodeId.value) then WithPlayer(g, k, p.(positionNodeId := Some(board.startNodeId)))
    else g
  }

  /**
   * The landing effect on next, when it ends the turn: SPECIAL sends the player to jail with next
   * as the return node, JAIL costs one turn, FINISH finishes the game with the player as winner
   * (finishSession's argument checks hold: the ids are the session's own and a looked-up player's).
   */
  function Landed(board: BoardGraph, g: Game, k: nat, next: string): (r: Option<Game>)
    requires k < |g.players|
    ensures r.Some? ==> (|r.value.players| == |g.players| &&
      (forall i :: 0 <= i < |g.players| && i != k ==> r.value.players[i] == g.players[i]) &&
      r.value.players[k].id == g.players[k].id && r.value.players[k].turnOrder == g.players[k].turnOrder)
  {
    var t := board.GetType(next);
    if t == Some(Special) then Some(WithPlayer(g, k, Jailed(board, g.players[k], Some(next))))
    else if t == Some(Jail) then Some(WithPlayer(g, k, g.players[k].(skipTurns := 1)))
    else if t == Some(Finish) then Some(Ended(g, Some(g.players[k].id)))
    else None
  }

  /** One step along the single outgoing edge of the node the player stands on. */
  function Stepped(board: BoardGraph, g: Game, k: nat): (r: Game)
    requires k < |g.players|
    requires |board.Outgoing(StandingOn(board, g.players[k]))| == 1
    ensures |r.players| == |g.players| && r.session == g.session && r.events == g.events
    ensures forall i :: 0 <= i < |g.players| && i != k ==> r.players[i] == g.players[i]
    ensures r.players[k] == g.players[k].(positionNodeId := Some(board.Outgoing(StandingOn(board, g.players[k]))[0]))
  {
    var g1 := Placed(board, g, k);
    WithPlayer(g1, k, g1.players[k].(positionNodeId := Some(board.Outgoing(StandingOn(board, g.players[k]))[0])))
  }

  /** The fork pause: the path choice is awaited at cur with the remaining steps. */
  function Paused(g: Game, cur: string, remaining: int): Game
  {
    g.(session := g.session.(turnStatus := AwaitingPathChoice, pendingForkNodeId := Some(cur),
      pendingRemainingSteps := Some(remaining)))
  }

  /**
   * moveSteps: player k walks up to remaining steps. Standing on FINISH or at a dead end ends the
   * walk and discards the rest; more than one outgoing edge pauses it; otherwise the player moves
   * along the single edge and a turn-ending landing stops the walk.
   */
  function Walk(board: BoardGraph, g: Game, k: nat, remaining: int): (r: (Game, MoveStop))
    requires k < |g.players|
    ensures |r.0.players| == |g.players|
    decreases remaining
  {
    if remaining <= 0 then (g, Walked)
    else
      var g1 := Placed(board, g, k);
      var cur := StandingOn(board, g.players[k]);
      var outs := board.Outgoing(cur);
      if board.GetType(cur) == Some(Finish) then (g1, Walked)
      else if |outs| > 1 then (Paused(g1, cur, remaining), AtFork(cur, remaining, outs))
      else if |outs| == 0 then (g1, Walked)
      else
        match Landed(board, Stepped(board, g, k), k, outs[0])
        case Some(g3) => (g3, TurnEnded)
        case None => Walk(board, Stepped(board, g, k), k, remaining - 1)
  }

  /** The number of edges Walk moves the player along. */
  ghost function Moves(board: BoardGraph, g: Game, k: nat, remaining: int): nat
    requires k < |g.players|
    decreases remaining
  {
    if remaining <= 0 then 0
    else
      var cur := StandingOn(board, g.players[k]);
      var outs := board.Outgoing(cur);
      if board.GetType(cur) == Some(Finish) || |outs| != 1 then 0
      else if Landed(board, Stepped(board, g, k), k, outs[0]).Some? then 1
      else 1 + Moves(board, Stepped(board, g, k), k, remaining - 1)
  }

  /** b is m single-edge steps after a: each node passed has exactly one outgoing edge. */
  ghost predicate Path(board: BoardGraph, a: string, b: string, m: nat)
    decreases m
  {
    if m == 0 then a == b
    else |board.Outgoing(a)| == 1 && Path(board, board.Outgoing(a)[0], b, m - 1)
  }

  /** advanceTurn followed by advanceTurnConsideringSkips, as the turn service ends a turn. */
  function EndOfTurn(g: Game): Game
  {
    ConsiderSkips(Advanced(g))
  }

  /**
   * After the walk: a turn-ending landing, or a stop on a FORK-typed node, ends the turn; a fork
   * pause waits for the choice; otherwise the turn goes on to the challenge (IDLE).
   */
  function Settled(board: BoardGraph, g: Game, k: nat, stop: MoveStop): Game
    requires k < |g.players|
  {
    match stop
    case TurnEnded => EndOfTurn(g)
    case AtFork(_, _, _) => g
    case Walked =>
      var pos := g.players[k].positionNodeId;
      if pos.Some? && board.GetType(pos.value) == Some(Fork) then EndOfTurn(g)
      else g.(session := g.session.(turnStatus := Idle))
  }

  // ---------------------------------------------------------------------------------------
  // rollD6 and choosePath
  // ---------------------------------------------------------------------------------------

  /**
   * The checks rollD6 and choosePath share: the lookups, the session checks, the skip loop (whose
   * effect stays even when a later check fails) and the turn check; the caller's position on success.
   */
  function TurnChecked(g: Game, sessionId: Option<string>, playerId: Option<string>): (r: (Game, Result<nat, ServiceError>))
    ensures r.1.Ok? ==> r.1.value < |r.0.players|
  {
    if Required(g, sessionId, playerId).Err? then (g, Err(Required(g, sessionId, playerId).error))
    else if !g.session.started then (g, Err(SessionNotStarted))
    else if g.session.status == Finished then (g, Err(SessionFinished))
    else
      var g1 := ConsiderSkips(g);
      match Required(g1, sessionId, playerId)
      case Err(e) => (g1, Err(e))
      case Ok(k) => if MyTurn(g1, k).Some? then (g1, Err(MyTurn(g1, k).value)) else (g1, Ok(k))
  }

  /** The walk of remaining steps for player k, then settled. */
  function WalkedOn(board: BoardGraph, g: Game, k: nat, remaining: int): Game
    requires k < |g.players|
  {
    var (g1, stop) := Walk(board, g, k, remaining);
    Settled(board, g1, k, stop)
  }

  /** The roll stored and a pending fork dropped, before the walk. */
  function RollStored(g: Game, roll: int): Game
  {
    g.(session := g.session.(lastDiceRoll := Some(roll), pendingForkNodeId := None, pendingRemainingSteps := None))
  }

  /**
   * rollD6: after the shared checks the die must be awaited; the roll is then stored, a pending
   * fork dropped, and the player walks roll steps.
   */
  function Rolled(board: BoardGraph, g: Game, sessionId: Option<string>, playerId: Option<string>, roll: int): (Game, Option<ServiceError>)
  {
    var (g1, checked) := TurnChecked(g, sessionId, playerId);
    if checked.Err? then (g1, Some(checked.error))
    else if g1.session.turnStatus != AwaitingD6Roll then (g1, Some(NotAwaitingRoll))
    else
      (WalkedOn(board, RollStored(g1, roll), checked.value, roll), None)
  }

  /** The fork fields dropped and the die awaited: how choosePath ends a turn at a jail. */
  function Cleared(g: Game): Game
  {
    g.(session := g.session.(pendingForkNodeId := None, pendingRemainingSteps := None, turnStatus := AwaitingD6Roll))
  }

  /**
   * The move from the fork onto to, which uses up one step: SPECIAL and JAIL end the turn,
   * FINISH finishes the game; otherwise the fork is dropped and the walk resumes with the
   * remaining steps less one.
   */
  function Branched(board: BoardGraph, g: Game, k: nat, to: string, remaining: int): Game
    requires k < |g.players|
  {
    var g2 := WithPlayer(g, k, g.players[k].(positionNodeId := Some(to)));
    var t := board.GetType(to);
    if t == Some(Special) then EndOfTurn(Cleared(WithPlayer(g2, k, Jailed(board, g2.players[k], Some(to)))))
    else if t == Some(Jail) then EndOfTurn(Cleared(WithPlayer(g2, k, g2.players[k].(skipTurns := 1))))
    else if t == Some(Finish) then Ended(g2, Some(g2.players[k].id))
    else
      WalkedOn(board, g2.(session := g2.session.(pendingForkNodeId := None, pendingRemainingSteps := None)), k, remaining - 1)
  }

  /** choosePath: after the shared checks, the pending fork and the choice are checked. */
  function PathChosen(board: BoardGraph, g: Game, sessionId: Option<string>, playerId: Option<string>, toNodeId: Option<string>): (Game, Option<ServiceError>)
  {
    var (g1, checked) := TurnChecked(g, sessionId, playerId);
    ForkChoice(board, g1, checked, toNodeId)
  }

  /** The fork and choice checks of choosePath, on the game and verdict the shared checks left. */
  function ForkChoice(board: BoardGraph, g1: Game, checked: Result<nat, ServiceError>, toNodeId: Option<string>): (Game, Option<ServiceError>)
    requires checked.Ok? ==> checked.value < |g1.players|
  {
    if checked.Err? then (g1, Some(checked.error))
    else if g1.session.turnStatus != AwaitingPathChoice then (g1, Some(NotAwaitingPathChoice))
    else if g1.session.pendingForkNodeId.None? || g1.session.pendingRemainingSteps.None? then (g1, Some(NoPendingFork))
    else if g1.session.pendingRemainingSteps.value <= 0 then (g1, Some(NoRemainingSteps))
    else if |board.Outgoing(g1.session.pendingForkNodeId.value)| == 0 then (g1, Some(ForkHasNoEdges))
    else if toNodeId.None? || toNodeId.value !in board.Outgoing(g1.session.pendingForkNodeId.value) then
      (g1, Some(InvalidPathChoice))
    else (Branched(board, g1, checked.value, toNodeId.value, g1.session.pendingRemainingSteps.value), None)
  }

  // ---------------------------------------------------------------------------------------
  // The methods
  // ---------------------------------------------------------------------------------------

  method SendToJailForOneTurn(s: Session, board: BoardGraph, k: nat, returnNodeId: Option<string>)
    requires k < |s.players|
    modifies s
    ensures s.Snap() == WithPlayer(old(s.Snap()), k, Jailed(board, old(s.players[k]), returnNodeId))
  {
    var p := s.players[k];
    if IsNullOrBlank(board.jailNodeId) {
      s.SetPlayer(k, p.(skipTurns := 1));
      return;
    }
    s.SetPlayer(k, p.(jailReturnNodeId := returnNodeId, positionNodeId := board.jailNodeId, skipTurns := 1));
  }

  /** Puts a player without a position on the start node; returns the node the player stands on. */
  method Place(s: Session, board: BoardGraph, k: nat) returns (cur: string)
    requires k < |s.players|
    modifies s
    ensures s.Snap() == Placed(board, old(s.Snap()), k)
    ensures cur == StandingOn(board, old(s.players[k]))
  {
    var p := s.players[k];
    if p.positionNodeId.None? || IsBlank(p.positionNodeId.value) {
      s.SetPlayer(k, p.(positionNodeId := Some(board.startNodeId)));
    }
    cur := s.players[k].positionNodeId.value;
  }

  /** Moves a placed player along the single outgoing edge of the node it stands on. */
  method Step(s: Session, board: BoardGraph, k: nat, next: string)
    requires k < |s.players| && s.players[k].positionNodeId == Some(StandingOn(board, s.players[k]))
    requires board.Outgoing(StandingOn(board, s.players[k])) == [next]
    modifies s
    ensures s.Snap() == Stepped(board, old(s.Snap()), k)
  {
    s.SetPlayer(k, s.players[k].(positionNodeId := Some(next)));
  }

  /** The landing effect on next; ended says whether it ended the turn (the state is kept if not). */
  method Land(s: Session, board: BoardGraph, k: nat, next: string) returns (ended: bool)
    requires k < |s.players|
    modifies s
    ensures ended == Landed(board, old(s.Snap()), k, next).Some?
    ensures s.Snap() == if ended then Landed(board, old(s.Snap()), k, next).value else old(s.Snap())
  {
    var t := board.GetType(next);
    ended := true;
    if t == Some(Special) {
      SendToJailForOneTurn(s, board, k, Some(next));
    } else if t == Some(Jail) {
      s.SetPlayer(k, s.players[k].(skipTurns := 1));
    } else if t == Some(Finish) {
      End(s, Some(s.players[k].id));
    } else {
      ended := false;
    }
  }

  method MoveSteps(s: Session, board: BoardGraph, k: nat, steps: int) returns (stop: MoveStop)
    requires k < |s.players|
    modifies s
    ensures (s.Snap(), stop) == Walk(board, old(s.Snap()), k, steps)
  {
    ghost var target := Walk(board, s.Snap(), k, steps);
    var remaining := steps;
    while remaining > 0
      invariant k < |s.players|
      invariant Walk(board, s.Snap(), k, remaining) == target
      decreases remaining
    {
      ghost var g0 := s.Snap();
      var cur := Place(s, board, k);
      if board.GetType(cur) == Some(Finish) {
        return Walked;
      }
      var outs := board.Outgoing(cur);
      if |outs| > 1 {
        s.AwaitPathChoice(cur, remaining);
        return AtFork(cur, remaining, outs);
      }
      if |outs| == 0 {
        return Walked;
      }
      Step(s, board, k, outs[0]);
      assert s.Snap() == Stepped(board, g0, k);
      remaining := remaining - 1;
      var ended := Land(s, board, k, outs[0]);
      if ended {
        return TurnEnded;
      }
    }
    return Walked;
  }

  method EndTurn(s: Session)
    modifies s
    ensures s.Snap() == EndOfTurn(old(s.Snap()))
  {
    AdvanceTurn(s);
    AdvanceTurnConsideringSkips(s);
  }

  method Settle(s: Session, board: BoardGraph, k: nat, stop: MoveStop)
    requires k < |s.players|
    modifies s
    ensures s.Snap() == Settled(board, old(s.Snap()), k, stop)
  {
    if stop.TurnEnded? {
      EndTurn(s);
      return;
    }
    if stop.AtFork? {
      return;
    }
    var endPos := s.players[k].positionNodeId;
    if endPos.Some? && board.GetType(endPos.value) == Some(Fork) {
      EndTurn(s);
      return;
    }
    s.SetTurnStatus(Idle);
  }

  method CheckTurn(s: Session, sessionId: Option<string>, playerId: Option<string>) returns (k: nat, err: Option<ServiceError>)
    modifies s
    ensures (s.Snap(), if err.Some? then Err(err.value) else Ok(k)) == TurnChecked(old(s.Snap()), sessionId, playerId)
  {
    k := 0;
    var req := Required(s.Snap(), sessionId, playerId);
    if req.Err? {
      return 0, Some(req.error);
    }
    if !s.started {
      return 0, Some(SessionNotStarted);
    }
    if s.status == Finished {
      return 0, Some(SessionFinished);
    }
    AdvanceTurnConsideringSkips(s);
    req := Required(s.Snap(), sessionId, playerId);
    if req.Err? {
      return 0, Some(req.error);
    }
    k := req.value;
    err := MyTurn(s.Snap(), k);
  }

  method WalkOn(s: Session, board: BoardGraph, k: nat, remaining: int)
    requires k < |s.players|
    modifies s
    ensures s.Snap() == WalkedOn(board, old(s.Snap()), k, remaining)
  {
    var stop := MoveSteps(s, board, k, remaining);
    Settle(s, board, k, stop);
  }

  method RollD6(s: Session, board: BoardGraph, sessionId: Option<string>, playerId: Option<string>, roll: int)
    returns (err: Option<ServiceError>)
    requires 1 <= roll <= 6
    modifies s
    ensures (s.Snap(), err) == Rolled(board, old(s.Snap()), sessionId, playerId, roll)
  {
    var k;
    k, err := CheckTurn(s, sessionId, playerId);
    if err.Some? {
      return;
    }
    if s.turnStatus != AwaitingD6Roll {
      return Some(NotAwaitingRoll);
    }
    s.SetLastDiceRoll(Some(roll));
    s.ClearFork();
    WalkOn(s, board, k, roll);
  }

  method ChoosePath(s: Session, board: BoardGraph, sessionId: Option<string>, playerId: Option<string>, toNodeId: Option<string>)
    returns (err: Option<ServiceError>)
    modifies s
    ensures (s.Snap(), err) == PathChosen(board, old(s.Snap()), sessionId, playerId, toNodeId)
  {
    var k;
    k, err := CheckTurn(s, sessionId, playerId);
    if err.Some? {
      return;
    }
    if s.turnStatus != AwaitingPathChoice {
      return Some(NotAwaitingPathChoice);
    }
    if s.pendingForkNodeId.None? || s.pendingRemainingSteps.None? {
      return Some(NoPendingFork);
    }
    var forkNode := s.pendingForkNodeId.value;
    var remaining := s.pendingRemainingSteps.value;
    if remaining <= 0 {
      return Some(NoRemainingSteps);
    }
    var outs := board.Outgoing(forkNode);
    if |outs| == 0 {
      return Some(ForkHasNoEdges);
    }
    if toNodeId.None? || toNodeId.value !in outs {
      return Some(InvalidPathChoice);
    }
    Branch(s, board, k, toNodeId.value, remaining);
  }

  method Branch(s: Session, board: BoardGraph, k: nat, to: string, remaining: int)
    requires k < |s.players|
    modifies s
    ensures s.Snap() == Branched(board, old(s.Snap()), k, to, remaining)
  {
    s.SetPlayer(k, s.players[k].(positionNodeId := Some(to)));
    var landed := board.GetType(to);
    if landed == Some(Special) {
      SendToJailForOneTurn(s, board, k, Some(to));
      s.ClearFork();
      s.SetTurnStatus(AwaitingD6Roll);
      EndTurn(s);
      return;
    }
    if landed == Some(Jail) {
      s.SetPlayer(k, s.players[k].(skipTurns := 1));
      s.ClearFork();
      s.SetTurnStatus(AwaitingD6Roll);
      EndTurn(s);
      return;
    }
    if landed == Some(Finish) {
      End(s, Some(s.players[k].id));
      return;
    }
    s.ClearFork();
    WalkOn(s, board, k, remaining - 1);
  }
}
