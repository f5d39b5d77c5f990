/**
 * Resolving a special card (SpecialCardController.apply): after a player landed on a SPECIAL
 * node, the card drawn at the table is selected and its effect applied, after which the turn
 * passes on. The response is modelled by CardOutcome: a refusal with its HTTP status, an
 * IllegalArgumentException, the BOOST fork prompt, or success.
 */
module SpecialCardController {
  import opened Wrappers
  import opened JavaStrings
  import opened GameModel
  import opened BoardGraphs
  import opened BoardGraphService
  import opened GameSessionService
  import opened SessionLifecycle
  import opened TurnService
  import opened SpecialCardTypes
  import opened ControllerGuards

  /** The IllegalArgumentExceptions of requireTarget and boostOneStep. */
  datatype CardError = TargetRequired | TargetNotFound | TargetNotInSession | InvalidBoostChoice

  datatype CardOutcome =
    | Refused(refusal: Refusal)
    | Thrown(error: CardError)
    | NeedChoice(forkNodeId: string, options: seq<ForkOption>)
    | Resolved(ignored: bool)

  // ---------------------------------------------------------------------------------------
  // The guards
  // ---------------------------------------------------------------------------------------

  /** The checks apply makes before any effect: those of every controller, then the card must be awaited (423). */
  function CardTurn(g: Game, sessionId: string, playerId: string): (r: Result<nat, Refusal>)
    ensures r.Ok? ==> r.value < |g.players| && g.players[r.value].id == playerId
    ensures r.Ok? <==> PlayerTurn(g, sessionId, playerId).Ok? && g.session.turnStatus == AwaitingSpecialCard
    ensures r == Err(Locked) <==> PlayerTurn(g, sessionId, playerId).Ok? && g.session.turnStatus != AwaitingSpecialCard
    ensures PlayerTurn(g, sessionId, playerId).Err? ==> r == PlayerTurn(g, sessionId, playerId)
  {
    match PlayerTurn(g, sessionId, playerId)
    case Err(e) => Err(e)
    case Ok(k) => if g.session.turnStatus != AwaitingSpecialCard then Err(Locked) else Ok(k)
  }

  /** requireTarget: a non-blank id of a player of the same session. */
  function TargetOf(g: Game, sessionId: string, targetPlayerId: Option<string>): (r: Result<nat, CardError>)
    ensures r.Ok? <==>
      (!IsNullOrBlank(targetPlayerId) && FindPlayer(g.players, targetPlayerId.value).Some? &&
       g.players[FindPlayer(g.players, targetPlayerId.value).value].sessionId == sessionId)
    ensures r.Ok? ==> r.value < |g.players| && g.players[r.value].id == targetPlayerId.value
  {
    if IsNullOrBlank(targetPlayerId) then Err(TargetRequired)
    else match FindPlayer(g.players, targetPlayerId.value)
      case None => Err(TargetNotFound)
      case Some(j) => if g.players[j].sessionId != sessionId then Err(TargetNotInSession) else Ok(j)
  }

  // ---------------------------------------------------------------------------------------
  // The effects
  // ---------------------------------------------------------------------------------------

  /** RAGE_BAIT: players k and j exchange positions (nothing changes when they are one player). */
  function Swapped(g: Game, k: nat, j: nat): (r: Game)
    requires k < |g.players| && j < |g.players|
    ensures |r.players| == |g.players| && r.session == g.session && r.events == g.events
  {
    var a := g.players[k].positionNodeId;
    var b := g.players[j].positionNodeId;
    g.(players := g.players[k := g.players[k].(positionNodeId := b)][j := g.players[j].(positionNodeId := a)])
  }

  /** The flag a self card sets: REFACTOR, SECOND_CHANCE or SHORTCUT_FOUND. */
  function Armed(card: SpecialCardType, p: Player): Player
  {
    if card.Refactor? then p.(nextHardBecomesMedium := true)
    else if card.SecondChance? then p.(nextDiceAdvantage := true)
    else if card.ShortcutFound? then p.(nextHardBecomesEasy := true)
    else p
  }

  /** The landing of a BOOST step on next: JAIL costs one turn, FINISH finishes the game. */
  function BoostLanded(board: BoardGraph, g: Game, k: nat, next: string): Game
    requires k < |g.players|
  {
    var g1 := if board.GetType(next) == Some(BoardNodeType.Jail) then WithPlayer(g, k, g.players[k].(skipTurns := 1)) else g;
    if board.GetType(next) == Some(Finish) then Ended(g1, Some(g1.players[k].id)) else g1
  }

  /**
   * boostOneStep: one step along the outgoing edges of the player's node; at a fork the choice
   * must be given (or the options are returned) and must be one of the edges. A player without
   * a position, or on a node without edges, stays put. Some outcome means apply stops there.
   */
  function Boosted(board: BoardGraph, g: Game, k: nat, boostToNodeId: Option<string>): (r: (Game, Option<CardOutcome>))
    requires k < |g.players|
  {
    var cur := g.players[k].positionNodeId;
    if cur.None? || |board.Outgoing(cur.value)| == 0 then (g, None)
    else
      var outs := board.Outgoing(cur.value);
      if |outs| > 1 && IsNullOrBlank(boostToNodeId) then (g, Some(NeedChoice(cur.value, ForkOptionsOf(board, cur))))
      else if |outs| > 1 && boostToNodeId.value !in outs then (g, Some(Thrown(InvalidBoostChoice)))
      else
        var next := if |outs| > 1 then boostToNodeId.value else outs[0];
        (BoostLanded(board, WithPlayer(g, k, g.players[k].(positionNodeId := Some(next))), k, next), None)
  }

  /** The cards played on another player (who may be the actor). */
  predicate Targeted(card: SpecialCardType)
  {
    card.PermissionDenied? || card.RageBait? || card.Rollback?
  }

  /** The switch of apply for player k; Some outcome means apply stops there without ending the turn. */
  function Effect(board: BoardGraph, g: Game, sessionId: string, k: nat, card: SpecialCardType,
                  targetPlayerId: Option<string>, boostToNodeId: Option<string>): (r: (Game, Option<CardOutcome>))
    requires k < |g.players|
  {
    if Targeted(card) then
      match TargetOf(g, sessionId, targetPlayerId)
      case Err(e) => (g, Some(Thrown(e)))
      case Ok(j) =>
        if card.PermissionDenied? then (WithPlayer(g, j, g.players[j].(ignoreNextPositiveSpecial := true)), None)
        else if card.RageBait? then (Swapped(g, k, j), None)
        else (WithPlayer(g, j, Jailed(board, g.players[j], g.players[j].positionNodeId)), None)
    else if card.Boost? then Boosted(board, g, k, boostToNodeId)
    else if card.Jail? then (WithPlayer(g, k, Jailed(board, g.players[k], g.players[k].positionNodeId)), None)
    else (WithPlayer(g, k, Armed(card, g.players[k])), None)
  }

  /** The end of every resolved card: the die is awaited and the turn advances. */
  function CardEnd(g: Game): Game
  {
    Advanced(g.(session := g.session.(turnStatus := AwaitingD6Roll)))
  }

  /** The actor's ignore flag cleared instead of a positive card's effect. */
  function Ignored(g: Game, k: nat): Game
    requires k < |g.players|
  {
    Published(WithPlayer(g, k, g.players[k].(ignoreNextPositiveSpecial := false)), SpecialIgnored)
  }

  /** apply: the guards, the ignore-next-positive shortcut, the card's effect, and the end of the turn. */
  function CardApplied(board: BoardGraph, g: Game, sessionId: string, playerId: string, card: SpecialCardType,
                       targetPlayerId: Option<string>, boostToNodeId: Option<string>): (Game, CardOutcome)
  {
    match CardTurn(g, sessionId, playerId)
    case Err(e) => (g, Refused(e))
    case Ok(k) =>
      if IsPositive(card) && g.players[k].ignoreNextPositiveSpecial then (CardEnd(Ignored(g, k)), Resolved(true))
      else
        var (g1, stop) := Effect(board, g, sessionId, k, card, targetPlayerId, boostToNodeId);
        if stop.Some? then (g1, stop.value) else (CardEnd(Published(g1, SpecialPlayed)), Resolved(false))
  }

  // ---------------------------------------------------------------------------------------
  // The methods
  // ---------------------------------------------------------------------------------------

  method EndCardTurn(s: Session)
    modifies s
    ensures s.Snap() == CardEnd(old(s.Snap()))
  {
    s.SetTurnStatus(AwaitingD6Roll);
    AdvanceTurn(s);
  }

  method BoostOneStep(s: Session, board: BoardGraph, k: nat, boostToNodeId: Option<string>) returns (stop: Option<CardOutcome>)
    requires k < |s.players|
    modifies s
    ensures (s.Snap(), stop) == Boosted(board, old(s.Snap()), k, boostToNodeId)
  {
    var cur := s.players[k].positionNodeId;
    if cur.None? {
      return None;
    }
    var outs := board.Outgoing(cur.value);
    if |outs| == 0 {
      return None;
    }
    var next;
    if |outs| > 1 {
      if IsNullOrBlank(boostToNodeId) {
        var options := GetForkOptions(board, cur);
        return Some(NeedChoice(cur.value, options));
      }
      if boostToNodeId.value !in outs {
        return Some(Thrown(InvalidBoostChoice));
      }
      next := boostToNodeId.value;
    } else {
      next := outs[0];
    }
    s.SetPlayer(k, s.players[k].(positionNodeId := Some(next)));
    BoostLand(s, board, k, next);
    return None;
  }

  method BoostLand(s: Session, board: BoardGraph, k: nat, next: string)
    requires k < |s.players|
    modifies s
    ensures s.Snap() == BoostLanded(board, old(s.Snap()), k, next)
  {
    var t := board.GetType(next);
    if t == Some(BoardNodeType.Jail) {
      s.SetPlayer(k, s.players[k].(skipTurns := 1));
    }
    if t == Some(Finish) {
      End(s, Some(s.players[k].id));
    }
  }

  method SwapPositions(s: Session, k: nat, j: nat)
    requires k < |s.players| && j < |s.players|
    modifies s
    ensures s.Snap() == Swapped(old(s.Snap()), k, j)
  {
    var a := s.players[k].positionNodeId;
    var b := s.players[j].positionNodeId;
    s.SetPlayer(k, s.players[k].(positionNodeId := b));
    s.SetPlayer(j, s.players[j].(positionNodeId := a));
  }

  method ApplyEffect(s: Session, board: BoardGraph, sessionId: string, k: nat, card: SpecialCardType,
                     targetPlayerId: Option<string>, boostToNodeId: Option<string>) returns (stop: Option<CardOutcome>)
    requires k < |s.players|
    modifies s
    ensures (s.Snap(), stop) == Effect(board, old(s.Snap()), sessionId, k, card, targetPlayerId, boostToNodeId)
  {
    if Targeted(card) {
      var target := TargetOf(s.Snap(), sessionId, targetPlayerId);
      if target.Err? {
        return Some(Thrown(target.error));
      }
      var j := target.value;
      if card.PermissionDenied? {
        s.SetPlayer(j, s.players[j].(ignoreNextPositiveSpecial := true));
      } else if card.RageBait? {
        SwapPositions(s, k, j);
      } else {
        SendToJailForOneTurn(s, board, j, s.players[j].positionNodeId);
      }
      return None;
    }
    if card.Boost? {
      stop := BoostOneStep(s, board, k, boostToNodeId);
      return;
    }
    if card.Jail? {
      SendToJailForOneTurn(s, board, k, s.players[k].positionNodeId);
      return None;
    }
    s.SetPlayer(k, Armed(card, s.players[k]));
    return None;
  }

  method Apply(s: Session, board: BoardGraph, sessionId: string, playerId: string, card: SpecialCardType,
               targetPlayerId: Option<string>, boostToNodeId: Option<string>) returns (outcome: CardOutcome)
    modifies s
    ensures (s.Snap(), outcome) == CardApplied(board, old(s.Snap()), sessionId, playerId, card, targetPlayerId, boostToNodeId)
  {
    var checked := CardTurn(s.Snap(), sessionId, playerId);
    if checked.Err? {
      return Refused(checked.error);
    }
    var k := checked.value;
    if IsPositive(card) && s.players[k].ignoreNextPositiveSpecial {
      IgnorePositive(s, k);
      return Resolved(true);
    }
    outcome := Resolve(s, board, sessionId, k, card, targetPlayerId, boostToNodeId);
  }

  method IgnorePositive(s: Session, k: nat)
    requires k < |s.players|
    modifies s
    ensures s.Snap() == CardEnd(Ignored(old(s.Snap()), k))
  {
    s.SetPlayer(k, s.players[k].(ignoreNextPositiveSpecial := false));
    PublishEvent(s, SpecialIgnored);
    EndCardTurn(s);
  }

  /** The card's effect, then (unless it stopped apply) the SPECIAL event and the end of the turn. */
  method Resolve(s: Session, board: BoardGraph, sessionId: string, k: nat, card: SpecialCardType,
                 targetPlayerId: Option<string>, boostToNodeId: Option<string>) returns (outcome: CardOutcome)
    requires k < |s.players|
    modifies s
    ensures var (g1, stop) := Effect(board, old(s.Snap()), sessionId, k, card, targetPlayerId, boostToNodeId);
      (s.Snap(), outcome) == if stop.Some? then (g1, stop.value) else (CardEnd(Published(g1, SpecialPlayed)), Resolved(false))
  {
    var stop := ApplyEffect(s, board, sessionId, k, card, targetPlayerId, boostToNodeId);
    if stop.Some? {
      return stop.value;
    }
    PublishEvent(s, SpecialPlayed);
    EndCardTurn(s);
    return Resolved(false);
  }
}
