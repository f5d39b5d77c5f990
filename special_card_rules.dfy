/**
 * What resolving a special card guarantees: refusals and early exits change nothing, a
 * positive card can be cancelled by PERMISSION_DENIED, the targeted cards need a target of the
 * session, RAGE_BAIT is a swap, the self cards arm one flag, the jail cards jail, BOOST moves
 * one step or asks for the fork, and every resolved card leaves the die awaited.
 */
module SpecialCardRules {
  import opened Wrappers
  import opened JavaStrings
  import opened GameModel
  import opened BoardGraphs
  import opened BoardGraphService
  import opened GameSessionService
  import opened SessionLifecycle
  import opened TurnService
  import opened TurnOutcomes
  import opened TurnMoves
  import opened SpecialCardTypes
  import opened SpecialCardController
  import opened ControllerGuards

  // ---------------------------------------------------------------------------------------
  // Refusals and early exits
  // ---------------------------------------------------------------------------------------

  /**
   * The effect stops apply exactly when a targeted card has no valid target or BOOST stands on a
   * fork without a valid choice; it then changes nothing and reports an exception or the prompt.
   */
  lemma EffectStops(board: BoardGraph, g: Game, sessionId: string, k: nat, card: SpecialCardType,
                    targetPlayerId: Option<string>, boostToNodeId: Option<string>)
    requires k < |g.players|
    ensures var (r, stop) := Effect(board, g, sessionId, k, card, targetPlayerId, boostToNodeId);
      var cur := g.players[k].positionNodeId;
      (stop.Some? <==>
        (Targeted(card) && TargetOf(g, sessionId, targetPlayerId).Err?) ||
        (card.Boost? && cur.Some? && |board.Outgoing(cur.value)| > 1 &&
         (IsNullOrBlank(boostToNodeId) || boostToNodeId.value !in board.Outgoing(cur.value)))) &&
      (stop.Some? ==> r == g && (stop.value.Thrown? || stop.value.NeedChoice?))
  {
  }

  /**
   * apply is refused exactly when its guards fail; a refusal, an exception or the BOOST prompt
   * leaves the game exactly as it was, so only a resolved card changes anything.
   */
  lemma UnresolvedChangesNothing(board: BoardGraph, g: Game, sessionId: string, playerId: string, card: SpecialCardType,
                                 targetPlayerId: Option<string>, boostToNodeId: Option<string>)
    ensures var (r, outcome) := CardApplied(board, g, sessionId, playerId, card, targetPlayerId, boostToNodeId);
      (outcome.Refused? <==> CardTurn(g, sessionId, playerId).Err?) &&
      (outcome.Refused? ==> outcome.refusal == CardTurn(g, sessionId, playerId).error) &&
      (!outcome.Resolved? ==> r == g)
  {
    if CardTurn(g, sessionId, playerId).Ok? {
      EffectStops(board, g, sessionId, CardTurn(g, sessionId, playerId).value, card, targetPlayerId, boostToNodeId);
    }
  }

  // ---------------------------------------------------------------------------------------
  // Ignore next positive
  // ---------------------------------------------------------------------------------------

  /**
   * A positive card played by a player whose flag is set has no effect: the flag is cleared,
   * SPECIAL_IGNORED is logged and the turn ends as after any card.
   */
  lemma PositiveCardIgnored(board: BoardGraph, g: Game, sessionId: string, playerId: string, card: SpecialCardType,
                            targetPlayerId: Option<string>, boostToNodeId: Option<string>)
    requires CardTurn(g, sessionId, playerId).Ok?
    requires IsPositive(card) && g.players[CardTurn(g, sessionId, playerId).value].ignoreNextPositiveSpecial
    ensures var k := CardTurn(g, sessionId, playerId).value;
      CardApplied(board, g, sessionId, playerId, card, targetPlayerId, boostToNodeId) == (CardEnd(Ignored(g, k)), Resolved(true))
  {
  }

  /** What is left of an ignored card before the turn ends: the flag cleared and SPECIAL_IGNORED logged. */
  lemma IgnoredClearsFlag(g: Game, k: nat)
    requires k < |g.players|
    ensures var h := Ignored(g, k);
      h.players == g.players[k := g.players[k].(ignoreNextPositiveSpecial := false)] &&
      h.events == g.events + [GameEvent(g.session.lastEventSeq + 1, SpecialIgnored)] &&
      h.session == g.session.(lastEventSeq := g.session.lastEventSeq + 1, lastEventType := Some(SpecialIgnored))
  {
  }

  /** Only a positive card with the flag set is ignored; any other resolution applies the effect. */
  lemma IgnoredOnlyWhenPositive(board: BoardGraph, g: Game, sessionId: string, playerId: string, card: SpecialCardType,
                                targetPlayerId: Option<string>, boostToNodeId: Option<string>)
    ensures CardApplied(board, g, sessionId, playerId, card, targetPlayerId, boostToNodeId).1 == Resolved(true) <==>
      (CardTurn(g, sessionId, playerId).Ok? && IsPositive(card) &&
       g.players[CardTurn(g, sessionId, playerId).value].ignoreNextPositiveSpecial)
  {
  }

  /** PERMISSION_DENIED arms the target's flag, and nothing else changes. */
  lemma PermissionDeniedArmsTarget(board: BoardGraph, g: Game, sessionId: string, k: nat,
                                   targetPlayerId: Option<string>, boostToNodeId: Option<string>)
    requires k < |g.players| && TargetOf(g, sessionId, targetPlayerId).Ok?
    ensures var j := TargetOf(g, sessionId, targetPlayerId).value;
      var (r, stop) := Effect(board, g, sessionId, k, PermissionDenied, targetPlayerId, boostToNodeId);
      stop.None? && r.session == g.session && r.events == g.events &&
      r.players == g.players[j := g.players[j].(ignoreNextPositiveSpecial := true)]
  {
  }

  // ---------------------------------------------------------------------------------------
  // Targeted cards
  // ---------------------------------------------------------------------------------------

  /**
   * PERMISSION_DENIED, RAGE_BAIT and ROLLBACK, played by the turn holder, throw exactly when the
   * target is missing, unknown or of another session, and then nothing has changed.
   */
  lemma TargetedCardNeedsTarget(board: BoardGraph, g: Game, sessionId: string, playerId: string, card: SpecialCardType,
                                targetPlayerId: Option<string>, boostToNodeId: Option<string>)
    requires CardTurn(g, sessionId, playerId).Ok? && Targeted(card)
    ensures var (r, outcome) := CardApplied(board, g, sessionId, playerId, card, targetPlayerId, boostToNodeId);
      (outcome.Thrown? <==> TargetOf(g, sessionId, targetPlayerId).Err?) &&
      (outcome.Thrown? ==> r == g && outcome.error == TargetOf(g, sessionId, targetPlayerId).error) &&
      (!outcome.Thrown? ==> outcome == Resolved(false))
  {
    assert !IsPositive(card);
  }

  /** RAGE_BAIT between two players: each stands where the other stood, all else is unchanged. */
  lemma RageBaitSwapsPositions(g: Game, k: nat, j: nat)
    requires k < |g.players| && j < |g.players| && k != j
    ensures var r := Swapped(g, k, j);
      r.players[k] == g.players[k].(positionNodeId := g.players[j].positionNodeId) &&
      r.players[j] == g.players[j].(positionNodeId := g.players[k].positionNodeId) &&
      forall i :: 0 <= i < |g.players| && i != k && i != j ==> r.players[i] == g.players[i]
  {
  }

  /** RAGE_BAIT played twice between the same players restores both positions; on oneself it changes nothing. */
  lemma RageBaitTwiceRestores(g: Game, k: nat, j: nat)
    requires k < |g.players| && j < |g.players|
    ensures Swapped(Swapped(g, k, j), k, j) == g
    ensures k == j ==> Swapped(g, k, j) == g
  {
    var r := Swapped(Swapped(g, k, j), k, j);
    assert r.players == g.players by {
      assert forall i :: 0 <= i < |g.players| ==> r.players[i] == g.players[i];
    }
  }

  // ---------------------------------------------------------------------------------------
  // Self cards and jail cards
  // ---------------------------------------------------------------------------------------

  /** REFACTOR, SECOND_CHANCE and SHORTCUT_FOUND set the actor's own flag; nothing moves. */
  lemma SelfCardArmsFlag(board: BoardGraph, g: Game, sessionId: string, k: nat, card: SpecialCardType,
                         targetPlayerId: Option<string>, boostToNodeId: Option<string>)
    requires k < |g.players| && (card.Refactor? || card.SecondChance? || card.ShortcutFound?)
    ensures var (r, stop) := Effect(board, g, sessionId, k, card, targetPlayerId, boostToNodeId);
      var p := g.players[k];
      stop.None? && r.session == g.session && r.events == g.events && |r.players| == |g.players| &&
      (forall i :: 0 <= i < |g.players| && i != k ==> r.players[i] == g.players[i]) &&
      (card.Refactor? ==> r.players[k] == p.(nextHardBecomesMedium := true)) &&
      (card.SecondChance? ==> r.players[k] == p.(nextDiceAdvantage := true)) &&
      (card.ShortcutFound? ==> r.players[k] == p.(nextHardBecomesEasy := true))
  {
  }

  /**
   * ROLLBACK jails the target and JAIL the actor: one turn to skip and, when the board has a
   * jail, a stay there with the position held before as the node to come back to.
   */
  lemma JailCardJails(board: BoardGraph, g: Game, sessionId: string, k: nat, card: SpecialCardType,
                      targetPlayerId: Option<string>, boostToNodeId: Option<string>)
    requires k < |g.players| && (card.Jail? || (card.Rollback? && TargetOf(g, sessionId, targetPlayerId).Ok?))
    ensures var j := if card.Jail? then k else TargetOf(g, sessionId, targetPlayerId).value;
      var (r, stop) := Effect(board, g, sessionId, k, card, targetPlayerId, boostToNodeId);
      var p := g.players[j];
      stop.None? && r.session == g.session && |r.players| == |g.players| &&
      (forall i :: 0 <= i < |g.players| && i != j ==> r.players[i] == g.players[i]) &&
      r.players[j].skipTurns == 1 &&
      (if IsNullOrBlank(board.jailNodeId)
       then r.players[j] == p.(skipTurns := 1)
       else r.players[j] == p.(positionNodeId := board.jailNodeId, jailReturnNodeId := p.positionNodeId, skipTurns := 1))
  {
  }

  // ---------------------------------------------------------------------------------------
  // BOOST
  // ---------------------------------------------------------------------------------------

  /**
   * BOOST: from a position with a single edge, or at a fork with a valid choice, the player
   * moves exactly one step onto that edge's target, loses a turn on JAIL and wins on FINISH; at
   * a fork without a choice the fork's options are returned; with no position or no edges the
   * player stays put.
   */
  lemma BoostCases(board: BoardGraph, g: Game, k: nat, boostToNodeId: Option<string>)
    requires k < |g.players| && g.session.status != Finished
    ensures var (r, stop) := Boosted(board, g, k, boostToNodeId);
      var cur := g.players[k].positionNodeId;
      (cur.None? || board.Outgoing(cur.value) == [] ==> r == g && stop.None?) &&
      (cur.Some? && |board.Outgoing(cur.value)| > 1 && IsNullOrBlank(boostToNodeId) ==>
        r == g && stop == Some(NeedChoice(cur.value, ForkOptionsOf(board, cur)))) &&
      ((cur.Some? && |board.Outgoing(cur.value)| > 1 && !IsNullOrBlank(boostToNodeId) &&
        boostToNodeId.value !in board.Outgoing(cur.value)) ==> r == g && stop == Some(Thrown(InvalidBoostChoice)))
  {
  }

  /** The landing of a BOOST step: JAIL costs a turn, FINISH ends the game with the player as winner. */
  lemma BoostLandedSpec(board: BoardGraph, g: Game, k: nat, next: string)
    requires k < |g.players| && g.session.status != Finished
    ensures var r := BoostLanded(board, g, k, next);
      |r.players| == |g.players| &&
      (forall i :: 0 <= i < |g.players| && i != k ==> r.players[i] == g.players[i]) &&
      r.players[k] == g.players[k].(skipTurns := if board.GetType(next) == Some(BoardNodeType.Jail) then 1 else g.players[k].skipTurns) &&
      (board.GetType(next) == Some(Finish) <==> r.session.status == Finished) &&
      (board.GetType(next) == Some(Finish) ==> r.session.winnerPlayerId == Some(g.players[k].id))
  {
  }

  /** A BOOST step that is taken: one edge along, and the landing on it. */
  lemma BoostMovesOneStep(board: BoardGraph, g: Game, k: nat, boostToNodeId: Option<string>)
    requires k < |g.players| && g.session.status != Finished
    requires Boosted(board, g, k, boostToNodeId).1.None?
    requires g.players[k].positionNodeId.Some? && board.Outgoing(g.players[k].positionNodeId.value) != []
    ensures var outs := board.Outgoing(g.players[k].positionNodeId.value);
      var next := if |outs| > 1 then boostToNodeId.value else outs[0];
      next in outs && (|outs| > 1 ==> !IsNullOrBlank(boostToNodeId)) &&
      Boosted(board, g, k, boostToNodeId).0 == BoostLanded(board, WithPlayer(g, k, g.players[k].(positionNodeId := Some(next))), k, next)
  {
  }

  /** The options BOOST offers at a fork are the fork's edges: each leads along one, and each edge is offered. */
  lemma BoostOptionsAreEdges(board: BoardGraph, fork: string)
    requires !IsBlank(fork)
    ensures var options := ForkOptionsOf(board, Some(fork));
      (forall i :: 0 <= i < |options| ==> options[i].to in board.Outgoing(fork)) &&
      (forall to :: to in board.Outgoing(fork) ==> exists i :: 0 <= i < |options| && options[i].to == to)
  {
    var options := ForkOptionsOf(board, Some(fork));
    var outs := board.Outgoing(fork);
    var built := Labelled(outs, Lookup(ShortcutTarget, fork), Lookup(StraightTarget, fork));
    ForkOptionsPermutation(board, Some(fork));
    forall i | 0 <= i < |options| ensures options[i].to in outs {
      assert options[i] in multiset(built);
      var m :| 0 <= m < |built| && built[m] == options[i];
      assert Targets(built)[m] == outs[m];
    }
    forall to | to in outs ensures exists i :: 0 <= i < |options| && options[i].to == to {
      var m :| 0 <= m < |outs| && outs[m] == to;
      assert Targets(built)[m] == to;
      assert built[m] in multiset(options);
      var i :| 0 <= i < |options| && options[i] == built[m];
    }
  }

  // ---------------------------------------------------------------------------------------
  // The end of the turn
  // ---------------------------------------------------------------------------------------

  /** The skip loop leaves the die awaited when it was. */
  lemma {:induction false} SkipLoopKeepsRoll(g: Game, n: nat, safety: nat)
    requires g.session.turnStatus == AwaitingD6Roll
    ensures SkipLoop(g, n, safety).0.session.turnStatus == AwaitingD6Roll
    decreases safety
  {
    if safety > 0 {
      SkipLoopKeepsRoll(SkipRound(g, n).0, n, safety - 1);
    }
  }

  /** Every resolved card leaves the die awaited, whether or not the game goes on. */
  lemma CardEndAwaitsRoll(g: Game)
    ensures CardEnd(g).session.turnStatus == AwaitingD6Roll
  {
    var g0 := g.(session := g.session.(turnStatus := AwaitingD6Roll));
    if InPlay(g0.session) {
      var g1 := NormalizedOrders(g0);
      NormalizedFrame(g0);
      if |g1.players| > 0 {
        var g2 := g1.(session := ResetTurn(g1.session, Successor(Clamp(g1.session.currentTurnOrder, |g1.players|), |g1.players|)));
        var g3 := NormalizedOrders(g2);
        NormalizedFrame(g2);
        if |g3.players| > 0 {
          SkipLoopKeepsRoll(g3, |g3.players|, |g3.players|);
          var g4 := SkipLoop(g3, |g3.players|, |g3.players|).0;
          NormalizedFrame(g4);
          SkipLoopKeepsPlay(g3, |g3.players|, |g3.players|);
        }
        ConsiderSkipsKeepsPlay(g2);
        NormalizedFrame(ConsiderSkips(g2));
        AnnouncedKeepsRoll(ConsiderSkips(g2));
      }
    }
  }

  lemma AnnouncedKeepsRoll(g: Game)
    requires g.session.turnStatus == AwaitingD6Roll
    ensures Announced(g).session.turnStatus == AwaitingD6Roll
  {
    NormalizedFrame(g);
  }

  /** A resolved card ends with the die awaited; apply never leaves a card awaited after resolving one. */
  lemma ResolvedAwaitsRoll(board: BoardGraph, g: Game, sessionId: string, playerId: string, card: SpecialCardType,
                           targetPlayerId: Option<string>, boostToNodeId: Option<string>)
    ensures var (r, outcome) := CardApplied(board, g, sessionId, playerId, card, targetPlayerId, boostToNodeId);
      outcome.Resolved? ==> r.session.turnStatus == AwaitingD6Roll
  {
    var checked := CardTurn(g, sessionId, playerId);
    if checked.Ok? {
      var k := checked.value;
      if IsPositive(card) && g.players[k].ignoreNextPositiveSpecial {
        CardEndAwaitsRoll(Ignored(g, k));
      } else {
        var e := Effect(board, g, sessionId, k, card, targetPlayerId, boostToNodeId);
        if e.1.None? {
          CardEndAwaitsRoll(Published(e.0, SpecialPlayed));
        }
      }
    }
  }
}
