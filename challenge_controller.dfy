/**
 * Starting a minigame for the player whose turn it is (ChallengeController). forTurn derives
 * the difficulty from the type of the player's board node and lets a REFACTOR or
 * SHORTCUT_FOUND card soften a HARD one; random takes the difficulty from the request. Both
 * lock the turn to one challenge instance, ask the router for a category other than the one
 * the player had last, and remember the category picked. The random instance id, the random
 * descriptor id and the router's random draw are parameters.
 */
module ChallengeController {
  import opened Wrappers
  import opened JavaStrings
  import opened GameModel
  import BoardGraphs
  import opened ChallengeRouting
  import opened ControllerGuards

  /** The response: a refusal with its status, an exception of the router, or the descriptor (200). */
  datatype ChallengeOutcome =
    | Refused(refusal: Refusal)
    | RouterFailed(error: RouterError)
    | Opened(descriptor: ChallengeDescriptor)

  /** The checks both endpoints make: those of every controller, then no challenge may be under way (423). */
  function ChallengeTurn(g: Game, sessionId: string, playerId: string): (r: Result<nat, Refusal>)
    ensures r.Ok? ==> r.value < |g.players| && g.players[r.value].id == playerId
    ensures r.Ok? <==> PlayerTurn(g, sessionId, playerId).Ok? && g.session.turnStatus in {Idle, Unset}
    ensures r == Err(Locked) <==> PlayerTurn(g, sessionId, playerId).Ok? && g.session.turnStatus !in {Idle, Unset}
    ensures PlayerTurn(g, sessionId, playerId).Err? ==> r == PlayerTurn(g, sessionId, playerId)
  {
    match PlayerTurn(g, sessionId, playerId)
    case Err(e) => Err(e)
    case Ok(k) => if g.session.turnStatus != Unset && g.session.turnStatus != Idle then Err(Locked) else Ok(k)
  }

  /** basePointsFor: 5, 10 and 15 points for EASY, MEDIUM and HARD, nothing without a difficulty. */
  function BasePointsFor(difficulty: Option<Difficulty>): (r: int)
    ensures difficulty.None? ==> r == 0
    ensures difficulty.Some? ==> r == 5 * Level(difficulty.value)
  {
    if difficulty.None? then 0
    else match difficulty.value
      case Easy => 5
      case Medium => 10
      case Hard => 15
  }

  /** The category to avoid: the remembered name, when it is not blank and names a category. */
  function ExcludeOf(lastChallengeCategory: Option<string>): (r: Option<Category>)
    ensures r.Some? <==> !IsNullOrBlank(lastChallengeCategory) && CategoryOf(lastChallengeCategory.value).Some?
    ensures r.Some? ==> Some(CategoryName(r.value)) == lastChallengeCategory
  {
    if IsNullOrBlank(lastChallengeCategory) then None else CategoryOf(lastChallengeCategory.value)
  }

  /**
   * The difficulty of the node the player stands on: EASY, MEDIUM and HARD fields give their
   * own, a FORK counts as MEDIUM, and every other node (START, JAIL, SPECIAL, FINISH, an
   * unknown id) or a missing position gives none.
   */
  function NodeDifficulty(board: BoardGraphs.BoardGraph, positionNodeId: Option<string>): (r: Option<Difficulty>)
    ensures r.Some? <==>
      (!IsNullOrBlank(positionNodeId) &&
       board.GetType(positionNodeId.value) in {Some(BoardGraphs.BoardNodeType.Easy), Some(BoardGraphs.BoardNodeType.Medium), Some(BoardGraphs.BoardNodeType.Hard), Some(BoardGraphs.BoardNodeType.Fork)})
    ensures r == Some(Hard) <==> !IsNullOrBlank(positionNodeId) && board.HasType(positionNodeId.value, BoardGraphs.BoardNodeType.Hard)
  {
    if IsNullOrBlank(positionNodeId) then None
    else
      var t := board.GetType(positionNodeId.value);
      if t == Some(BoardGraphs.BoardNodeType.Easy) then Some(Easy)
      else if t == Some(BoardGraphs.BoardNodeType.Medium) then Some(Medium)
      else if t == Some(BoardGraphs.BoardNodeType.Hard) then Some(Hard)
      else if t == Some(BoardGraphs.BoardNodeType.Fork) then Some(Medium)
      else None
  }

  /** The card downgrades of a HARD challenge: the easy flag first, else the medium flag, each used up once. */
  function Downgraded(d: Difficulty, p: Player): (Difficulty, Player)
  {
    if d == Hard && p.nextHardBecomesEasy then (Easy, p.(nextHardBecomesEasy := false))
    else if d == Hard && p.nextHardBecomesMedium then (Medium, p.(nextHardBecomesMedium := false))
    else (d, p)
  }

  /** The turn locked to one challenge instance. */
  function LockedTo(g: Game, instanceId: string): Game
  {
    g.(session := g.session.(turnStatus := InChallenge, activeChallengeId := Some(instanceId)))
  }

  /**
   * What both endpoints do once the difficulty is settled: lock the turn, ask the router for a
   * category avoiding the player's last one, and remember the category picked. An exception of
   * the router leaves the lock in place.
   */
  function Started(routes: map<Category, string>, g: Game, k: nat, d: Difficulty, category: Option<Category>,
                   instanceId: string, draw: nat, descriptorId: string): (Game, ChallengeOutcome)
    requires k < |g.players|
  {
    var g1 := LockedTo(g, instanceId);
    var p := g.players[k];
    match Picked(routes, Some(d), category, ExcludeOf(p.lastChallengeCategory), draw, descriptorId)
    case Err(e) => (g1, RouterFailed(e))
    case Ok(c) =>
      (g1.(players := g.players[k := p.(lastChallengeCategory := Some(CategoryName(c.category)))]),
       Opened(c.(challengeInstanceId := Some(instanceId), basePoints := Some(BasePointsFor(Some(d))))))
  }

  /** forTurn. */
  function ForTurnSpec(board: BoardGraphs.BoardGraph, routes: map<Category, string>, g: Game, sessionId: string, playerId: string,
                       category: Option<Category>, instanceId: string, draw: nat, descriptorId: string): (Game, ChallengeOutcome)
  {
    match ChallengeTurn(g, sessionId, playerId)
    case Err(e) => (g, Refused(e))
    case Ok(k) =>
      match NodeDifficulty(board, g.players[k].positionNodeId)
      case None => (g, Refused(Conflict))
      case Some(d0) =>
        var (d, p) := Downgraded(d0, g.players[k]);
        Started(routes, g.(players := g.players[k := p]), k, d, category, instanceId, draw, descriptorId)
  }

  /** random: the requested difficulty as it is, no card downgrade. */
  function RandomSpec(routes: map<Category, string>, g: Game, sessionId: string, playerId: string, d: Difficulty,
                      category: Option<Category>, instanceId: string, draw: nat, descriptorId: string): (Game, ChallengeOutcome)
  {
    match ChallengeTurn(g, sessionId, playerId)
    case Err(e) => (g, Refused(e))
    case Ok(k) => Started(routes, g, k, d, category, instanceId, draw, descriptorId)
  }

  // ---------------------------------------------------------------------------------------
  // The methods
  // ---------------------------------------------------------------------------------------

  method Start(s: Session, router: ChallengeRouterService, k: nat, d: Difficulty, category: Option<Category>,
               instanceId: string, draw: nat, descriptorId: string) returns (outcome: ChallengeOutcome)
    requires k < |s.players|
    modifies s
    ensures (s.Snap(), outcome) == Started(router.categoryToRoute, old(s.Snap()), k, d, category, instanceId, draw, descriptorId)
  {
    s.SetTurnStatus(InChallenge);
    s.SetActiveChallengeId(Some(instanceId));
    var exclude := ExcludeOf(s.players[k].lastChallengeCategory);
    var picked := router.PickRandom(Some(d), category, exclude, draw, descriptorId);
    if picked.Err? {
      return RouterFailed(picked.error);
    }
    var c := picked.value.(challengeInstanceId := Some(instanceId), basePoints := Some(BasePointsFor(Some(d))));
    s.SetPlayer(k, s.players[k].(lastChallengeCategory := Some(CategoryName(c.category))));
    return Opened(c);
  }

  method ForTurn(s: Session, router: ChallengeRouterService, board: BoardGraphs.BoardGraph, sessionId: string, playerId: string,
                 category: Option<Category>, instanceId: string, draw: nat, descriptorId: string) returns (outcome: ChallengeOutcome)
    modifies s
    ensures (s.Snap(), outcome) ==
      ForTurnSpec(board, router.categoryToRoute, old(s.Snap()), sessionId, playerId, category, instanceId, draw, descriptorId)
  {
    var checked := ChallengeTurn(s.Snap(), sessionId, playerId);
    if checked.Err? {
      return Refused(checked.error);
    }
    var k := checked.value;
    var nodeDifficulty := NodeDifficulty(board, s.players[k].positionNodeId);
    if nodeDifficulty.None? {
      return Refused(Conflict);
    }
    ghost var g0 := s.Snap();
    var d := nodeDifficulty.value;
    if d == Hard && s.players[k].nextHardBecomesEasy {
      s.SetPlayer(k, s.players[k].(nextHardBecomesEasy := false));
      d := Easy;
    } else if d == Hard && s.players[k].nextHardBecomesMedium {
      s.SetPlayer(k, s.players[k].(nextHardBecomesMedium := false));
      d := Medium;
    }
    assert (d, s.players[k]) == Downgraded(nodeDifficulty.value, g0.players[k]);
    assert s.Snap() == g0.(players := g0.players[k := s.players[k]]);
    outcome := Start(s, router, k, d, category, instanceId, draw, descriptorId);
  }

  method Random(s: Session, router: ChallengeRouterService, sessionId: string, playerId: string, d: Difficulty,
                category: Option<Category>, instanceId: string, draw: nat, descriptorId: string) returns (outcome: ChallengeOutcome)
    modifies s
    ensures (s.Snap(), outcome) ==
      RandomSpec(router.categoryToRoute, old(s.Snap()), sessionId, playerId, d, category, instanceId, draw, descriptorId)
  {
    var checked := ChallengeTurn(s.Snap(), sessionId, playerId);
    if checked.Err? {
      return Refused(checked.error);
    }
    outcome := Start(s, router, checked.value, d, category, instanceId, draw, descriptorId);
  }
}
