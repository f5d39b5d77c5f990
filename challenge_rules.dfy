/**
 * What starting a challenge promises: refusals change nothing, a turn holds one challenge at
 * most, the descriptor carries the instance id and the fixed points of its difficulty, a card
 * downgrade is used up by the challenge it softens, and a category is not drawn twice in a row.
 */
module ChallengeRules {
  import opened Wrappers
  import opened JavaStrings
  import opened GameModel
  import BoardGraphs
  import opened ChallengeRouting
  import opened ControllerGuards
  import opened ChallengeController

  /** A refused request of either endpoint leaves the game as it was. */
  lemma RefusalsChangeNothing(board: BoardGraphs.BoardGraph, routes: map<Category, string>, g: Game, sessionId: string,
                              playerId: string, d: Difficulty, category: Option<Category>, instanceId: string, draw: nat,
                              descriptorId: string)
    ensures ForTurnSpec(board, routes, g, sessionId, playerId, category, instanceId, draw, descriptorId).1.Refused? ==>
      ForTurnSpec(board, routes, g, sessionId, playerId, category, instanceId, draw, descriptorId).0 == g
    ensures RandomSpec(routes, g, sessionId, playerId, d, category, instanceId, draw, descriptorId).1.Refused? ==>
      RandomSpec(routes, g, sessionId, playerId, d, category, instanceId, draw, descriptorId).0 == g
  {
  }

  /**
   * forTurn refuses exactly as the guards say, and with 409 also when the player stands on no
   * challenge field; random refuses exactly as the guards say.
   */
  lemma ForTurnRefusals(board: BoardGraphs.BoardGraph, routes: map<Category, string>, g: Game, sessionId: string,
                        playerId: string, d: Difficulty, category: Option<Category>, instanceId: string, draw: nat,
                        descriptorId: string)
    ensures var r := ForTurnSpec(board, routes, g, sessionId, playerId, category, instanceId, draw, descriptorId).1;
      var t := ChallengeTurn(g, sessionId, playerId);
      (r.Refused? <==> t.Err? || NodeDifficulty(board, g.players[t.value].positionNodeId).None?) &&
      (t.Err? ==> r == Refused(t.error)) &&
      (t.Ok? && r.Refused? ==> r == Refused(Conflict))
    ensures var r := RandomSpec(routes, g, sessionId, playerId, d, category, instanceId, draw, descriptorId).1;
      var t := ChallengeTurn(g, sessionId, playerId);
      (r.Refused? <==> t.Err?) && (t.Err? ==> r == Refused(t.error))
  {
  }

  /**
   * Once a challenge was started (or the router failed after the lock), every further request
   * of either endpoint in that turn is refused, with 423 for the player whose turn it is.
   */
  lemma OneChallengePerTurn(board: BoardGraphs.BoardGraph, routes: map<Category, string>, g: Game, sessionId: string,
                            playerId: string, d: Difficulty, category: Option<Category>, instanceId: string, draw: nat,
                            descriptorId: string,
                            sessionId2: string, playerId2: string, d2: Difficulty, category2: Option<Category>,
                            instanceId2: string, draw2: nat, descriptorId2: string)
    requires !RandomSpec(routes, g, sessionId, playerId, d, category, instanceId, draw, descriptorId).1.Refused?
    ensures var g1 := RandomSpec(routes, g, sessionId, playerId, d, category, instanceId, draw, descriptorId).0;
      ForTurnSpec(board, routes, g1, sessionId2, playerId2, category2, instanceId2, draw2, descriptorId2).1.Refused? &&
      RandomSpec(routes, g1, sessionId2, playerId2, d2, category2, instanceId2, draw2, descriptorId2).1.Refused? &&
      (PlayerTurn(g1, sessionId2, playerId2).Ok? ==>
        RandomSpec(routes, g1, sessionId2, playerId2, d2, category2, instanceId2, draw2, descriptorId2).1 == Refused(Locked))
  {
    var k := ChallengeTurn(g, sessionId, playerId).value;
    var g1 := RandomSpec(routes, g, sessionId, playerId, d, category, instanceId, draw, descriptorId).0;
    assert g1.session.turnStatus == InChallenge;
  }

  /** The same for forTurn. */
  lemma OneChallengePerTurnForTurn(board: BoardGraphs.BoardGraph, routes: map<Category, string>, g: Game, sessionId: string,
                                   playerId: string, category: Option<Category>, instanceId: string, draw: nat,
                                   descriptorId: string,
                                   sessionId2: string, playerId2: string, d2: Difficulty, category2: Option<Category>,
                                   instanceId2: string, draw2: nat, descriptorId2: string)
    requires !ForTurnSpec(board, routes, g, sessionId, playerId, category, instanceId, draw, descriptorId).1.Refused?
    ensures var g1 := ForTurnSpec(board, routes, g, sessionId, playerId, category, instanceId, draw, descriptorId).0;
      ForTurnSpec(board, routes, g1, sessionId2, playerId2, category2, instanceId2, draw2, descriptorId2).1.Refused? &&
      RandomSpec(routes, g1, sessionId2, playerId2, d2, category2, instanceId2, draw2, descriptorId2).1.Refused? &&
      (PlayerTurn(g1, sessionId2, playerId2).Ok? ==>
        ForTurnSpec(board, routes, g1, sessionId2, playerId2, category2, instanceId2, draw2, descriptorId2).1 == Refused(Locked))
  {
    var g1 := ForTurnSpec(board, routes, g, sessionId, playerId, category, instanceId, draw, descriptorId).0;
    assert g1.session.turnStatus == InChallenge;
  }

  /**
   * A started challenge: the turn is locked to the instance id, the descriptor carries it and
   * the points of its difficulty, the player remembers the category, and nothing else changes.
   */
  lemma StartedFacts(routes: map<Category, string>, g: Game, k: nat, d: Difficulty, category: Option<Category>,
                     instanceId: string, draw: nat, descriptorId: string)
    requires k < |g.players|
    ensures var (g1, r) := Started(routes, g, k, d, category, instanceId, draw, descriptorId);
      g1.session == g.session.(turnStatus := InChallenge, activeChallengeId := Some(instanceId)) &&
      g1.events == g.events && |g1.players| == |g.players| &&
      (forall j :: 0 <= j < |g.players| && j != k ==> g1.players[j] == g.players[j]) &&
      (r.Opened? ==>
        r.descriptor.difficulty == d && r.descriptor.challengeInstanceId == Some(instanceId) &&
        r.descriptor.basePoints == Some(5 * Level(d)) && r.descriptor.id == descriptorId &&
        r.descriptor.route == routes[r.descriptor.category] &&
        (category.Some? ==> r.descriptor.category == category.value) &&
        g1.players[k] == g.players[k].(lastChallengeCategory := Some(CategoryName(r.descriptor.category)))) &&
      (r.RouterFailed? ==> g1.players == g.players)
  {
  }

  /** With the configured routes the router never fails, so a request that passes the guards opens a challenge. */
  lemma DefaultRoutesOpen(g: Game, k: nat, d: Difficulty, category: Option<Category>, instanceId: string, draw: nat,
                          descriptorId: string)
    requires k < |g.players|
    ensures Started(DefaultRoutes, g, k, d, category, instanceId, draw, descriptorId).1.Opened?
  {
    DefaultRoutesAlwaysPick(d, category, ExcludeOf(g.players[k].lastChallengeCategory), draw, descriptorId);
  }

  /**
   * The "no repeat twice" rule: with the configured routes and no category asked for, the
   * category drawn is never the one the player's last challenge had, and it becomes the one
   * to avoid next time.
   */
  lemma NoRepeatTwice(g: Game, k: nat, d: Difficulty, last: Category, instanceId: string, draw: nat, descriptorId: string)
    requires k < |g.players|
    requires g.players[k].lastChallengeCategory == Some(CategoryName(last))
    ensures var (g1, r) := Started(DefaultRoutes, g, k, d, None, instanceId, draw, descriptorId);
      r.Opened? && r.descriptor.category != last &&
      ExcludeOf(g1.players[k].lastChallengeCategory) == Some(r.descriptor.category)
  {
    CategoryNameRoundTrip(last);
    assert !IsBlank(CategoryName(last)) by {
      assert !IsTrimmable(CategoryName(last)[0]);
    }
    assert ExcludeOf(g.players[k].lastChallengeCategory) == Some(last);
    DefaultRoutesAlwaysPick(d, None, Some(last), draw, descriptorId);
    var c := Picked(DefaultRoutes, Some(d), None, Some(last), draw, descriptorId).value.category;
    CategoryNameRoundTrip(c);
    assert !IsBlank(CategoryName(c)) by {
      assert !IsTrimmable(CategoryName(c)[0]);
    }
  }

  /**
   * The difficulty forTurn plays: that of the node, except that a HARD node becomes EASY when
   * the player holds the SHORTCUT_FOUND flag and MEDIUM when they hold only the REFACTOR flag;
   * the flag used is cleared and the other is kept. Random never touches the flags.
   */
  lemma DowngradeCases(d: Difficulty, p: Player)
    ensures d != Hard ==> Downgraded(d, p) == (d, p)
    ensures d == Hard && p.nextHardBecomesEasy ==>
      Downgraded(d, p) == (Easy, p.(nextHardBecomesEasy := false))
    ensures d == Hard && !p.nextHardBecomesEasy && p.nextHardBecomesMedium ==>
      Downgraded(d, p) == (Medium, p.(nextHardBecomesMedium := false))
    ensures d == Hard && !p.nextHardBecomesEasy && !p.nextHardBecomesMedium ==> Downgraded(d, p) == (d, p)
    ensures Level(Downgraded(d, p).0) <= Level(d)
  {
  }

  /**
   * forTurn on a challenge field: the descriptor's difficulty and points are those of the
   * node after the card downgrade, and the downgrade stays used up when the router fails.
   */
  lemma ForTurnPlaysNodeDifficulty(board: BoardGraphs.BoardGraph, routes: map<Category, string>, g: Game, sessionId: string,
                                   playerId: string, category: Option<Category>, instanceId: string, draw: nat,
                                   descriptorId: string)
    requires ChallengeTurn(g, sessionId, playerId).Ok?
    requires NodeDifficulty(board, g.players[ChallengeTurn(g, sessionId, playerId).value].positionNodeId).Some?
    ensures var k := ChallengeTurn(g, sessionId, playerId).value;
      var (d, p) := Downgraded(NodeDifficulty(board, g.players[k].positionNodeId).value, g.players[k]);
      var (g1, r) := ForTurnSpec(board, routes, g, sessionId, playerId, category, instanceId, draw, descriptorId);
      !r.Refused? &&
      g1.session.turnStatus == InChallenge && g1.session.activeChallengeId == Some(instanceId) &&
      (r.Opened? ==>
        (r.descriptor.difficulty == d && r.descriptor.basePoints == Some(BasePointsFor(Some(d))) &&
         g1.players[k] == p.(lastChallengeCategory := Some(CategoryName(r.descriptor.category))))) &&
      (r.RouterFailed? ==> g1.players[k] == p)
  {
    var k := ChallengeTurn(g, sessionId, playerId).value;
    var (d, p) := Downgraded(NodeDifficulty(board, g.players[k].positionNodeId).value, g.players[k]);
    StartedFacts(routes, g.(players := g.players[k := p]), k, d, category, instanceId, draw, descriptorId);
  }

  /** random plays the requested difficulty and leaves the downgrade flags alone. */
  lemma RandomPlaysRequested(routes: map<Category, string>, g: Game, sessionId: string, playerId: string, d: Difficulty,
                             category: Option<Category>, instanceId: string, draw: nat, descriptorId: string)
    requires ChallengeTurn(g, sessionId, playerId).Ok?
    ensures var k := ChallengeTurn(g, sessionId, playerId).value;
      var (g1, r) := RandomSpec(routes, g, sessionId, playerId, d, category, instanceId, draw, descriptorId);
      (r.Opened? ==> r.descriptor.difficulty == d && r.descriptor.basePoints == Some(BasePointsFor(Some(d)))) &&
      g1.players[k].nextHardBecomesEasy == g.players[k].nextHardBecomesEasy &&
      g1.players[k].nextHardBecomesMedium == g.players[k].nextHardBecomesMedium
  {
    var k := ChallengeTurn(g, sessionId, playerId).value;
    StartedFacts(routes, g, k, d, category, instanceId, draw, descriptorId);
  }

  /** Fields other than EASY, MEDIUM, HARD and FORK host no challenge: forTurn answers 409 there. */
  lemma NoChallengeOffTheFields(board: BoardGraphs.BoardGraph, routes: map<Category, string>, g: Game, sessionId: string,
                                playerId: string, category: Option<Category>, instanceId: string, draw: nat,
                                descriptorId: string)
    requires ChallengeTurn(g, sessionId, playerId).Ok?
    requires var p := g.players[ChallengeTurn(g, sessionId, playerId).value];
      p.positionNodeId.Some? &&
      board.GetType(p.positionNodeId.value) in
        {None, Some(BoardGraphs.BoardNodeType.Start), Some(BoardGraphs.BoardNodeType.Jail),
         Some(BoardGraphs.BoardNodeType.Special), Some(BoardGraphs.BoardNodeType.Finish)}
    ensures ForTurnSpec(board, routes, g, sessionId, playerId, category, instanceId, draw, descriptorId) ==
      (g, Refused(Conflict))
  {
  }
}
