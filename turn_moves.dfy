/**
 * What the turn service promises about a walk, a die roll and a path choice: the fork pause,
 * movement along single edges only and never more edges than steps, the landing effects, the
 * jail round trip, and the guards of rollD6 and choosePath.
 */
module TurnMoves {
  import opened Wrappers
  import opened JavaStrings
  import opened GameModel
  import opened BoardGraphs
  import opened GameSessionService
  import opened SessionLifecycle
  import opened TurnService

  /**
   * A jailed player who then skips the turn stands on the return node again, with no return
   * node left and no skips: the jail lasts exactly one turn.
   */
  lemma JailedThenSkipped(board: BoardGraph, p: Player, returnNodeId: Option<string>)
    requires !IsNullOrBlank(board.jailNodeId) && !IsNullOrBlank(returnNodeId)
    ensures Jailed(board, p, returnNodeId).positionNodeId == board.jailNodeId
    ensures Skipped(Jailed(board, p, returnNodeId))
         == p.(positionNodeId := returnNodeId, jailReturnNodeId := None, skipTurns := 0)
  {
  }

  /**
   * A walk paused at a fork: the path choice is awaited at the fork with the steps still to go,
   * which are more than zero and no more than the walk had, there is more than one way on, and
   * the player stands on the fork.
   */
  lemma {:induction false} WalkAtFork(board: BoardGraph, g: Game, k: nat, remaining: int)
    requires k < |g.players|
    ensures var (r, stop) := Walk(board, g, k, remaining);
      stop.AtFork? ==>
        r.session.turnStatus == AwaitingPathChoice && r.session.pendingForkNodeId == Some(stop.forkNodeId) &&
        r.session.pendingRemainingSteps == Some(stop.remainingSteps) &&
        0 < stop.remainingSteps <= remaining &&
        stop.options == board.Outgoing(stop.forkNodeId) && |stop.options| > 1 &&
        r.players[k].positionNodeId == Some(stop.forkNodeId)
    decreases remaining
  {
    var cur := StandingOn(board, g.players[k]);
    var outs := board.Outgoing(cur);
    if remaining > 0 && board.GetType(cur) != Some(Finish) && |outs| == 1 {
      var g2 := Stepped(board, g, k);
      if Landed(board, g2, k, outs[0]).None? {
        WalkAtFork(board, g2, k, remaining - 1);
      }
    }
  }

  /**
   * Movement follows single edges only and never more edges than steps. A walk that was not cut
   * short by a landing ends Moves single-edge steps after where it started (a null or blank
   * position read as START); a fork pause has used exactly the steps moved; and when a walk ends
   * with steps left over, the player stands on FINISH or at a dead end.
   */
  lemma {:induction false} WalkPath(board: BoardGraph, g: Game, k: nat, remaining: int)
    requires k < |g.players| && NonBlankTargets(board)
    ensures Moves(board, g, k, remaining) <= if remaining < 0 then 0 else remaining
    ensures var (r, stop) := Walk(board, g, k, remaining);
      !stop.TurnEnded? ==>
        Path(board, StandingOn(board, g.players[k]), StandingOn(board, r.players[k]), Moves(board, g, k, remaining))
    ensures var (r, stop) := Walk(board, g, k, remaining);
      stop.AtFork? ==> Moves(board, g, k, remaining) == remaining - stop.remainingSteps
    ensures var (r, stop) := Walk(board, g, k, remaining);
      stop.Walked? && Moves(board, g, k, remaining) < remaining ==>
        board.GetType(StandingOn(board, r.players[k])) == Some(Finish) ||
        board.Outgoing(StandingOn(board, r.players[k])) == []
    decreases remaining
  {
    var cur := StandingOn(board, g.players[k]);
    var outs := board.Outgoing(cur);
    if remaining > 0 {
      var g1 := Placed(board, g, k);
      assert StandingOn(board, g1.players[k]) == cur;
      if board.GetType(cur) != Some(Finish) && |outs| == 1 {
        var g2 := Stepped(board, g, k);
        if Landed(board, g2, k, outs[0]).None? {
          WalkPath(board, g2, k, remaining - 1);
          assert outs[0] in board.outgoingById[cur];
          assert StandingOn(board, g2.players[k]) == outs[0];
        }
      } else if |outs| > 1 {
        assert StandingOn(board, Paused(g1, cur, remaining).players[k]) == cur;
      }
    }
  }

  /** Every edge target is a non-blank id, as board validation demands. */
  ghost predicate NonBlankTargets(board: BoardGraph)
  {
    forall a, j :: a in board.outgoingById && 0 <= j < |board.outgoingById[a]| ==> !IsBlank(board.outgoingById[a][j])
  }

  /**
   * What a walk changes besides the player's position: nobody else; a landing ends the turn by
   * finishing the game with the player as winner or with one turn to skip; a walk that was not
   * cut short changes no skips, no die value and no events.
   */
  lemma {:induction false} WalkFrame(board: BoardGraph, g: Game, k: nat, remaining: int)
    requires k < |g.players|
    ensures var r := Walk(board, g, k, remaining).0;
      (forall i :: 0 <= i < |g.players| && i != k ==> r.players[i] == g.players[i]) &&
      r.players[k].id == g.players[k].id && r.players[k].turnOrder == g.players[k].turnOrder
    decreases remaining
  {
    var cur := StandingOn(board, g.players[k]);
    var outs := board.Outgoing(cur);
    if remaining > 0 && board.GetType(cur) != Some(Finish) && |outs| == 1 {
      var g2 := Stepped(board, g, k);
      if Landed(board, g2, k, outs[0]).None? {
        WalkFrame(board, g2, k, remaining - 1);
      }
    }
  }

  lemma {:induction false} WalkEffects(board: BoardGraph, g: Game, k: nat, remaining: int)
    requires k < |g.players| && g.session.status != Finished
    ensures var (r, stop) := Walk(board, g, k, remaining);
      r.session.status == Finished ==> stop.TurnEnded? && r.session.winnerPlayerId == Some(g.players[k].id)
    ensures var (r, stop) := Walk(board, g, k, remaining);
      stop.TurnEnded? && r.session.status != Finished ==> r.players[k].skipTurns == 1
    ensures var (r, stop) := Walk(board, g, k, remaining);
      !stop.TurnEnded? ==>
        r.players[k].skipTurns == g.players[k].skipTurns && r.session.lastDiceRoll == g.session.lastDiceRoll &&
        r.session.status == g.session.status && r.events == g.events
    decreases remaining
  {
    var cur := StandingOn(board, g.players[k]);
    var outs := board.Outgoing(cur);
    if remaining > 0 && board.GetType(cur) != Some(Finish) && |outs| == 1 {
      var g2 := Stepped(board, g, k);
      assert g2.session == g.session && g2.events == g.events && g2.players[k].skipTurns == g.players[k].skipTurns;
      LandedEffects(board, g2, k, outs[0]);
      if Landed(board, g2, k, outs[0]).None? {
        WalkEffects(board, g2, k, remaining - 1);
        assert Walk(board, g, k, remaining) == Walk(board, g2, k, remaining - 1);
      } else {
        assert Walk(board, g, k, remaining) == (Landed(board, g2, k, outs[0]).value, TurnEnded);
      }
    }
  }

  /** A landing that ends the turn either finishes the game with the player as winner or leaves one turn to skip. */
  lemma LandedEffects(board: BoardGraph, g: Game, k: nat, next: string)
    requires k < |g.players| && g.session.status != Finished
    ensures Landed(board, g, k, next).Some? ==>
      var g3 := Landed(board, g, k, next).value;
      (g3.session.status == Finished ==> g3.session.winnerPlayerId == Some(g.players[k].id)) &&
      (g3.session.status != Finished ==> g3.players[k].skipTurns == 1)
  {
  }

  lemma {:induction false} SkipLoopKeepsPlay(g: Game, n: nat, safety: nat)
    ensures SkipLoop(g, n, safety).0.session.started == g.session.started
    ensures SkipLoop(g, n, safety).0.session.status == g.session.status
    decreases safety
  {
    if safety > 0 {
      SkipRoundKeepsPlay(g, n);
      SkipLoopKeepsPlay(SkipRound(g, n).0, n, safety - 1);
    }
  }

  /** One round of the skip loop neither starts nor finishes a game. */
  lemma SkipRoundKeepsPlay(g: Game, n: nat)
    ensures SkipRound(g, n).0.session.started == g.session.started
    ensures SkipRound(g, n).0.session.status == g.session.status
  {
  }

  /** The skip loop neither starts nor finishes a game. */
  lemma ConsiderSkipsKeepsPlay(g: Game)
    ensures ConsiderSkips(g).session.started == g.session.started
    ensures ConsiderSkips(g).session.status == g.session.status
  {
    if InPlay(g.session) {
      var g1 := NormalizedOrders(g);
      SkipLoopKeepsPlay(g1, |g1.players|, |g1.players|);
    }
  }

  /**
   * The shared checks of rollD6 and choosePath pass exactly when the ids are given and known,
   * the session is started and unfinished, and after the skip loop the caller holds the current
   * order, which is above zero. A refusal leaves the game as it was or as the skip loop left it.
   */
  lemma TurnCheckedSpec(g: Game, sessionId: Option<string>, playerId: Option<string>)
    ensures var (r, checked) := TurnChecked(g, sessionId, playerId);
      checked.Ok? <==>
        Required(g, sessionId, playerId).Ok? && InPlay(g.session) &&
        Required(ConsiderSkips(g), sessionId, playerId).Ok? &&
        0 < ConsiderSkips(g).session.currentTurnOrder &&
        ConsiderSkips(g).players[Required(ConsiderSkips(g), sessionId, playerId).value].turnOrder
          == ConsiderSkips(g).session.currentTurnOrder
    ensures var (r, checked) := TurnChecked(g, sessionId, playerId);
      (r == g || r == ConsiderSkips(g)) &&
      (checked.Ok? ==> r == ConsiderSkips(g) && r.players[checked.value].id == playerId.value)
  {
  }

  /**
   * rollD6 moves only once every check has passed and the die is awaited; a refused roll stores
   * no roll and moves nobody.
   */
  lemma RolledRefused(board: BoardGraph, g: Game, sessionId: Option<string>, playerId: Option<string>, roll: int)
    ensures var (r, err) := Rolled(board, g, sessionId, playerId, roll);
      err.None? <==> TurnChecked(g, sessionId, playerId).1.Ok? && TurnChecked(g, sessionId, playerId).0.session.turnStatus == AwaitingD6Roll
    ensures var (r, err) := Rolled(board, g, sessionId, playerId, roll);
      err.Some? ==> r == g || r == ConsiderSkips(g)
  {
    TurnCheckedSpec(g, sessionId, playerId);
  }

  /**
   * An accepted roll walks roll steps from the game the skip loop left, with the roll stored
   * and no fork pending, in an unfinished session.
   */
  lemma RolledAccepted(board: BoardGraph, g: Game, sessionId: Option<string>, playerId: Option<string>, roll: int)
    requires Rolled(board, g, sessionId, playerId, roll).1.None?
    ensures var (g1, checked) := TurnChecked(g, sessionId, playerId);
      checked.Ok? && g1 == ConsiderSkips(g) && InPlay(g1.session) &&
      Rolled(board, g, sessionId, playerId, roll).0 == WalkedOn(board, RollStored(g1, roll), checked.value, roll) &&
      RollStored(g1, roll).session.lastDiceRoll == Some(roll) && RollStored(g1, roll).session.pendingForkNodeId == None
  {
    TurnCheckedSpec(g, sessionId, playerId);
    ConsiderSkipsKeepsPlay(g);
  }

  /**
   * How a walk is settled: a fork pause waits for the choice, a landing or a stop on a
   * FORK-typed node ends the turn, and any other walk goes on to the challenge with the die
   * value kept.
   */
  lemma WalkedOnCases(board: BoardGraph, g: Game, k: nat, remaining: int)
    requires k < |g.players| && g.session.status != Finished
    ensures var (w, stop) := Walk(board, g, k, remaining);
      var r := WalkedOn(board, g, k, remaining);
      (stop.AtFork? ==> r == w && r.session.turnStatus == AwaitingPathChoice && r.session.lastDiceRoll == g.session.lastDiceRoll) &&
      (stop.TurnEnded? ==> r == EndOfTurn(w)) &&
      (stop.Walked? ==>
        if w.players[k].positionNodeId.Some? && board.GetType(w.players[k].positionNodeId.value) == Some(Fork)
        then r == EndOfTurn(w)
        else r == w.(session := w.session.(turnStatus := Idle)) && r.session.lastDiceRoll == g.session.lastDiceRoll)
  {
    WalkEffects(board, g, k, remaining);
    WalkAtFork(board, g, k, remaining);
  }

  /**
   * choosePath needs, after the shared checks, a pending fork with steps left and a choice among
   * the fork's outgoing nodes; a refusal moves nobody.
   */
  lemma PathChosenRefused(board: BoardGraph, g: Game, sessionId: Option<string>, playerId: Option<string>, toNodeId: Option<string>)
    ensures var (r, err) := PathChosen(board, g, sessionId, playerId, toNodeId);
      var g1 := TurnChecked(g, sessionId, playerId).0;
      err.None? <==>
        TurnChecked(g, sessionId, playerId).1.Ok? && g1.session.turnStatus == AwaitingPathChoice &&
        g1.session.pendingForkNodeId.Some? && g1.session.pendingRemainingSteps.Some? &&
        g1.session.pendingRemainingSteps.value > 0 && toNodeId.Some? &&
        toNodeId.value in board.Outgoing(g1.session.pendingForkNodeId.value)
    ensures var (r, err) := PathChosen(board, g, sessionId, playerId, toNodeId);
      err.Some? ==> r == g || r == ConsiderSkips(g)
  {
    var (g1, checked) := TurnChecked(g, sessionId, playerId);
    ForkChoiceRefused(board, g1, checked, toNodeId);
    TurnCheckedSpec(g, sessionId, playerId);
  }

  /** The fork and choice checks pass exactly when a fork with steps left is pending and the choice follows it. */
  lemma ForkChoiceRefused(board: BoardGraph, g1: Game, checked: Result<nat, ServiceError>, toNodeId: Option<string>)
    requires checked.Ok? ==> checked.value < |g1.players|
    ensures var (r, err) := ForkChoice(board, g1, checked, toNodeId);
      (err.None? <==>
        checked.Ok? && g1.session.turnStatus == AwaitingPathChoice &&
        g1.session.pendingForkNodeId.Some? && g1.session.pendingRemainingSteps.Some? &&
        g1.session.pendingRemainingSteps.value > 0 && toNodeId.Some? &&
        toNodeId.value in board.Outgoing(g1.session.pendingForkNodeId.value)) &&
      (err.Some? ==> r == g1)
  {
  }

  /** An accepted choice is the move onto the chosen node with the pending steps. */
  lemma PathChosenAccepted(board: BoardGraph, g: Game, sessionId: Option<string>, playerId: Option<string>, toNodeId: Option<string>)
    requires PathChosen(board, g, sessionId, playerId, toNodeId).1.None?
    ensures var (g1, checked) := TurnChecked(g, sessionId, playerId);
      checked.Ok? && g1 == ConsiderSkips(g) && InPlay(g1.session) && toNodeId.Some? &&
      g1.session.pendingForkNodeId.Some? && g1.session.pendingRemainingSteps.Some? &&
      PathChosen(board, g, sessionId, playerId, toNodeId).0
        == Branched(board, g1, checked.value, toNodeId.value, g1.session.pendingRemainingSteps.value)
  {
    PathChosenMoves(board, g, sessionId, playerId, toNodeId);
    TurnCheckedInPlay(g, sessionId, playerId);
  }

  /** An accepted choice passed the turn checks and is the branch onto the chosen node. */
  lemma PathChosenMoves(board: BoardGraph, g: Game, sessionId: Option<string>, playerId: Option<string>, toNodeId: Option<string>)
    requires PathChosen(board, g, sessionId, playerId, toNodeId).1.None?
    ensures var (g1, checked) := TurnChecked(g, sessionId, playerId);
      checked.Ok? && toNodeId.Some? &&
      g1.session.pendingForkNodeId.Some? && g1.session.pendingRemainingSteps.Some? &&
      PathChosen(board, g, sessionId, playerId, toNodeId).0
        == Branched(board, g1, checked.value, toNodeId.value, g1.session.pendingRemainingSteps.value)
  {
    var (g1, checked) := TurnChecked(g, sessionId, playerId);
    ForkChoiceMoves(board, g1, checked, toNodeId);
  }

  /** Passing the fork and choice checks is the branch onto the chosen node with the pending steps. */
  lemma ForkChoiceMoves(board: BoardGraph, g1: Game, checked: Result<nat, ServiceError>, toNodeId: Option<string>)
    requires checked.Ok? ==> checked.value < |g1.players|
    requires ForkChoice(board, g1, checked, toNodeId).1.None?
    ensures checked.Ok? && toNodeId.Some? &&
      g1.session.pendingForkNodeId.Some? && g1.session.pendingRemainingSteps.Some? &&
      ForkChoice(board, g1, checked, toNodeId).0
        == Branched(board, g1, checked.value, toNodeId.value, g1.session.pendingRemainingSteps.value)
  {
  }

  /** Passing the turn checks means the skips were considered and the game is still in play. */
  lemma TurnCheckedInPlay(g: Game, sessionId: Option<string>, playerId: Option<string>)
    requires TurnChecked(g, sessionId, playerId).1.Ok?
    ensures TurnChecked(g, sessionId, playerId).0 == ConsiderSkips(g)
    ensures InPlay(TurnChecked(g, sessionId, playerId).0.session)
  {
    TurnCheckedSpec(g, sessionId, playerId);
    ConsiderSkipsKeepsPlay(g);
  }

  /**
   * The state choosePath leaves behind before a SPECIAL or JAIL landing ends the turn: the mover
   * has one turn to skip and stands in jail with to as the return node when a SPECIAL node sends
   * them there and the board has a jail, otherwise on to; the fork is dropped, the die awaited,
   * and nobody and nothing else has changed.
   */
  ghost predicate LeftInJailAt(board: BoardGraph, g: Game, k: nat, to: string, h: Game)
    requires k < |g.players|
  {
    var p := g.players[k];
    |h.players| == |g.players| && h.events == g.events &&
    (forall i :: 0 <= i < |g.players| && i != k ==> h.players[i] == g.players[i]) &&
    h.players[k].id == p.id && h.players[k].turnOrder == p.turnOrder && h.players[k].skipTurns == 1 &&
    h.session == g.session.(pendingForkNodeId := None, pendingRemainingSteps := None, turnStatus := AwaitingD6Roll) &&
    if board.GetType(to) == Some(Special) && !IsNullOrBlank(board.jailNodeId) then
      h.players[k].positionNodeId == board.jailNodeId && h.players[k].jailReturnNodeId == Some(to)
    else
      h.players[k].positionNodeId == Some(to) && h.players[k].jailReturnNodeId == p.jailReturnNodeId
  }

  /** A SPECIAL or JAIL node chosen at a fork: the mover is left with one turn to skip and the turn ends. */
  lemma BranchedEndsTurn(board: BoardGraph, g: Game, k: nat, to: string, remaining: int)
    requires k < |g.players|
    requires board.GetType(to) == Some(Special) || board.GetType(to) == Some(Jail)
    ensures exists h: Game :: Branched(board, g, k, to, remaining) == EndOfTurn(h) && LeftInJailAt(board, g, k, to, h)
  {
    var g2 := WithPlayer(g, k, g.players[k].(positionNodeId := Some(to)));
    var h := if board.GetType(to) == Some(Special)
      then Cleared(WithPlayer(g2, k, Jailed(board, g2.players[k], Some(to))))
      else Cleared(WithPlayer(g2, k, g2.players[k].(skipTurns := 1)));
    assert LeftInJailAt(board, g, k, to, h);
    assert Branched(board, g, k, to, remaining) == EndOfTurn(h);
  }

  /** The state the walk resumes from after a fork: the mover on to, no fork pending, nothing else changed. */
  ghost predicate ResumesFrom(board: BoardGraph, g: Game, k: nat, to: string, h: Game)
    requires k < |g.players|
  {
    |h.players| == |g.players| && h.events == g.events &&
    (forall i :: 0 <= i < |g.players| && i != k ==> h.players[i] == g.players[i]) &&
    h.players[k] == g.players[k].(positionNodeId := Some(to)) &&
    h.session == g.session.(pendingForkNodeId := None, pendingRemainingSteps := None)
  }

  /**
   * An ordinary node chosen at a fork: the move there uses up one step, and the walk resumes with
   * the steps that remain less one from the mover standing on to.
   */
  lemma BranchedWalksOn(board: BoardGraph, g: Game, k: nat, to: string, remaining: int)
    requires k < |g.players|
    requires board.GetType(to) != Some(Special) && board.GetType(to) != Some(Jail) && board.GetType(to) != Some(Finish)
    ensures exists h: Game :: ResumesFrom(board, g, k, to, h) && Branched(board, g, k, to, remaining) == WalkedOn(board, h, k, remaining - 1)
  {
    var g2 := WithPlayer(g, k, g.players[k].(positionNodeId := Some(to)));
    var h := g2.(session := g2.session.(pendingForkNodeId := None, pendingRemainingSteps := None));
    assert ResumesFrom(board, g, k, to, h);
    assert Branched(board, g, k, to, remaining) == WalkedOn(board, h, k, remaining - 1);
  }

  /** FINISH chosen at a fork finishes the game with the mover, standing on it, as the winner. */
  lemma BranchedFinishes(board: BoardGraph, g: Game, k: nat, to: string, remaining: int)
    requires k < |g.players| && g.session.status != Finished
    requires board.GetType(to) == Some(Finish)
    ensures var r := Branched(board, g, k, to, remaining);
      r.session.status == Finished && r.session.winnerPlayerId == Some(g.players[k].id) &&
      r.players == g.players[k := g.players[k].(positionNodeId := Some(to))]
  {
  }
}
