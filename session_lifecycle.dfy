/**
 * The session's life cycle in GameSessionService: starting the game once the lobby is settled
 * (tryStartIfAllReady), the legacy turn handover (confirmTurnHandover), a player leaving
 * (handlePlayerLeft) and the end of the game (finishSession).
 */
module SessionLifecycle {
  import opened Wrappers
  import opened JavaStrings
  import opened GameModel
  import opened GameSessionService
  import opened TurnRotation
  import opened TurnOutcomes

  /** The IllegalArgumentException messages of the game services (the texts are not modelled). */
  datatype ServiceError =
    | SessionIdRequired
    | PlayerIdRequired
    | WinnerIdRequired
    | SessionNotFound
    | SessionFinished
    | SessionNotStarted
    | NoHandoverPending
    | PlayerNotFound
    | PlayerNotForSession
    | NotYourTurn
    | TurnNotInitialized
    | NotAwaitingRoll
    | NotAwaitingPathChoice
    | NoPendingFork
    | NoRemainingSteps
    | ForkHasNoEdges
    | InvalidPathChoice

  // ---------------------------------------------------------------------------------------
  // tryStartIfAllReady
  // ---------------------------------------------------------------------------------------

  predicate AllReady(ps: seq<Player>)
  {
    forall i :: 0 <= i < |ps| ==> ps[i].ready
  }

  predicate AllRolled(ps: seq<Player>)
  {
    forall i :: 0 <= i < |ps| ==> ps[i].lobbyRoll.Some?
  }

  /** The lobby is settled: not finished or started, someone joined, all are ready, all rolled, no ties. */
  predicate CanStart(g: Game)
  {
    g.session.status != Finished && !g.session.started && |g.players| > 0 &&
    AllReady(g.players) && AllRolled(g.players) && TiedIds(g.players) == {}
  }

  /** The session fields set on start: in progress, locked, order 1 up, waiting for the die. */
  function StartedSession(s: SessionState): SessionState
  {
    ResetTurn(s.(started := true, status := InProgress, turnOrderLocked := true), 1)
  }

  /** The game the lobby starts into, before skips are consumed and the turn announced. */
  function StartingGame(g: Game): Game
  {
    var g1 := RecomputedFromLobbyRoll(g);
    g1.(session := StartedSession(g1.session))
  }

  function TryStarted(g: Game): Game
  {
    if !CanStart(g) then g else Announced(ConsiderSkips(StartingGame(g)))
  }

  method TryStartIfAllReady(s: Session)
    modifies s
    ensures s.Snap() == TryStarted(old(s.Snap()))
  {
    if s.status == Finished || s.started {
      return;
    }
    var players := s.players;
    if |players| == 0 {
      return;
    }
    if !(forall i | 0 <= i < |players| :: players[i].ready) {
      return;
    }
    if !(forall i | 0 <= i < |players| :: players[i].lobbyRoll.Some?) {
      return;
    }
    var tied := ComputeTiedPlayerIds(players);
    if |tied| > 0 {
      assert tied[0] in Elems(tied);
      return;
    }
    assert Elems(tied) == {};
    assert CanStart(s.Snap());
    Start(s);
    AdvanceTurnConsideringSkips(s);
    AnnounceCurrentTurn(s);
  }

  /** The orders are finalised from the lobby rolls and the session fields set for the first turn. */
  method Start(s: Session)
    modifies s
    ensures s.Snap() == StartingGame(old(s.Snap()))
  {
    RecomputeTurnOrderFromLobbyRoll(s);
    s.started := true;
    s.status := InProgress;
    s.turnOrderLocked := true;
    s.PassTurnTo(1);
  }

  /** Nothing happens unless the lobby is settled. */
  lemma TryStartedOnlyWhenSettled(g: Game)
    ensures !CanStart(g) ==> TryStarted(g) == g
    ensures CanStart(g) ==> TryStarted(g).session.started && !g.session.started
  {
    if CanStart(g) {
      TryStartedClosedForm(g);
    }
  }

  /**
   * Starting in closed form: the orders are finalised from the lobby rolls, order 1 is up, the k
   * holders with skips left from order 1 on are skipped, and TURN_NEXT is announced once, or twice
   * when a turn was skipped.
   */
  lemma TryStartedClosedForm(g: Game)
    requires CanStart(g)
    ensures var g1 := StartingGame(g);
      var n := |g.players|;
      var k := Run(g1.players, n, 1, n);
      TryStarted(g) ==
        if k > 0 then Published(Published(SkipTo(g1, 1, k, n), TurnNext), TurnNext)
        else Published(g1, TurnNext)
  {
    var g1 := StartingGame(g);
    var n := |g.players|;
    RecomputedFromLobbyRollSpec(g);
    ConsiderSkipsClosedForm(g1);
    var k := Run(g1.players, n, 1, n);
    if k > 0 {
      var h := Published(SkipTo(g1, 1, k, n), TurnNext);
      SkipFirstSameOrders(g1.players, 1, k, n);
      SameOrdersPermutation(h.players, g1.players);
      CycRange(1, k, n);
      AnnouncedInRange(h);
    } else {
      AnnouncedInRange(g1);
    }
  }

  /** Each player after the start is the one at that position in the starting game, or it one skip fewer. */
  lemma TryStartedPlayers(g: Game)
    requires CanStart(g)
    ensures |TryStarted(g).players| == |g.players|
    ensures SameOrders(TryStarted(g).players, StartingGame(g).players)
    ensures forall i :: 0 <= i < |g.players| ==>
      TryStarted(g).players[i] == StartingGame(g).players[i] ||
      TryStarted(g).players[i] == Skipped(StartingGame(g).players[i])
    ensures 1 <= TryStarted(g).session.currentTurnOrder <= |g.players|
    ensures TryStarted(g).session == StartingGame(g).session.(currentTurnOrder := TryStarted(g).session.currentTurnOrder,
      lastEventSeq := TryStarted(g).session.lastEventSeq, lastEventType := TryStarted(g).session.lastEventType)
  {
    var g1 := StartingGame(g);
    var n := |g.players|;
    TryStartedClosedForm(g);
    var k := Run(g1.players, n, 1, n);
    SkipFirstSameOrders(g1.players, 1, k, n);
    CycRange(1, k, n);
  }

  /**
   * After a start the game is in progress and locked, the die is awaited with no challenge, dice
   * or fork pending, and the current order is one of 1..n.
   */
  lemma TryStartedSession(g: Game)
    requires CanStart(g)
    ensures var r := TryStarted(g);
      r.session.started && r.session.status == InProgress && r.session.turnOrderLocked &&
      r.session.turnStatus == AwaitingD6Roll && r.session.activeChallengeId == None &&
      r.session.lastDiceRoll == None && r.session.pendingForkNodeId == None &&
      r.session.pendingRemainingSteps == None &&
      1 <= r.session.currentTurnOrder <= |g.players|
  {
    TryStartedPlayers(g);
  }

  /**
   * The orders after a start are 1..n with higher lobby rolls first, and each player is the one
   * who joined, at most one skip consumed.
   */
  lemma TryStartedOrders(g: Game)
    requires CanStart(g)
    ensures OrdersArePermutation(TryStarted(g).players) && |TryStarted(g).players| == |g.players|
    ensures forall i, j ::
      0 <= i < |g.players| && 0 <= j < |g.players| && g.players[i].lobbyRoll.value > g.players[j].lobbyRoll.value
      ==> TryStarted(g).players[i].turnOrder < TryStarted(g).players[j].turnOrder
    ensures forall i :: 0 <= i < |g.players| ==>
      TryStarted(g).players[i].id == g.players[i].id &&
      (TryStarted(g).players[i].skipTurns == g.players[i].skipTurns ||
       TryStarted(g).players[i].skipTurns == g.players[i].skipTurns - 1)
  {
    var n := |g.players|;
    var g1 := StartingGame(g);
    RecomputedFromLobbyRollSpec(g);
    TryStartedPlayers(g);
    var r := TryStarted(g);
    assert SameOrders(r.players, g1.players);
    forall i | 0 <= i < n
      ensures r.players[i].id == g.players[i].id
      ensures r.players[i].skipTurns == g.players[i].skipTurns || r.players[i].skipTurns == g.players[i].skipTurns - 1
    {
      assert g1.players[i] == g.players[i].(turnOrder := g1.players[i].turnOrder);
    }
    forall i, j | 0 <= i < n && 0 <= j < n && g.players[i].lobbyRoll.value > g.players[j].lobbyRoll.value
      ensures r.players[i].turnOrder < r.players[j].turnOrder
    {
      assert RollBefore(g.players[i].lobbyRoll, g.players[j].lobbyRoll);
    }
  }

  /** In a fresh lobby nobody has skips: order 1 is up and one TURN_NEXT is published. */
  lemma TryStartedNoSkips(g: Game)
    requires CanStart(g)
    requires forall i :: 0 <= i < |g.players| ==> g.players[i].skipTurns <= 0
    ensures TryStarted(g) == Published(StartingGame(g), TurnNext)
    ensures TryStarted(g).session.currentTurnOrder == 1
  {
    TryStartedClosedForm(g);
    var g1 := StartingGame(g);
    RecomputedFromLobbyRollSpec(g);
    var n := |g.players|;
    if FirstWithOrder(g1.players, 1).Some? {
      var k0 := FirstWithOrder(g1.players, 1).value;
      assert g1.players[k0] == g.players[k0].(turnOrder := g1.players[k0].turnOrder);
    }
    assert !HasSkips(g1.players, 1);
  }

  // ---------------------------------------------------------------------------------------
  // confirmTurnHandover
  // ---------------------------------------------------------------------------------------

  /**
   * The legacy handover: argument, session and phase checks, then the orders are normalised
   * (and kept even when a later check fails) and only the current holder may pass the turn on.
   */
  function HandoverConfirmed(g: Game, sessionId: Option<string>, playerId: Option<string>): (Game, Option<ServiceError>)
  {
    if IsNullOrBlank(sessionId) then (g, Some(SessionIdRequired))
    else if IsNullOrBlank(playerId) then (g, Some(PlayerIdRequired))
    else if sessionId.value != g.session.id then (g, Some(SessionNotFound))
    else if g.session.status == Finished then (g, Some(SessionFinished))
    else if !g.session.started then (g, Some(SessionNotStarted))
    else if g.session.turnStatus != AwaitingConfirm then (g, Some(NoHandoverPending))
    else
      var g1 := NormalizedOrders(g);
      match FindPlayer(g1.players, playerId.value)
      case None => (g1, Some(PlayerNotFound))
      case Some(k) =>
        if g1.players[k].sessionId != sessionId.value then (g1, Some(PlayerNotForSession))
        else if g1.players[k].turnOrder != g1.session.currentTurnOrder then (g1, Some(NotYourTurn))
        else (Advanced(g1), None)
  }

  method ConfirmTurnHandover(s: Session, sessionId: Option<string>, playerId: Option<string>) returns (err: Option<ServiceError>)
    modifies s
    ensures (s.Snap(), err) == HandoverConfirmed(old(s.Snap()), sessionId, playerId)
  {
    if IsNullOrBlank(sessionId) {
      return Some(SessionIdRequired);
    }
    if IsNullOrBlank(playerId) {
      return Some(PlayerIdRequired);
    }
    if sessionId.value != s.id {
      return Some(SessionNotFound);
    }
    if s.status == Finished {
      return Some(SessionFinished);
    }
    if !s.started {
      return Some(SessionNotStarted);
    }
    if s.turnStatus != AwaitingConfirm {
      return Some(NoHandoverPending);
    }
    NormalizeTurnOrders(s);
    var k := FindPlayer(s.players, playerId.value);
    if k.None? {
      return Some(PlayerNotFound);
    }
    if s.players[k.value].sessionId != sessionId.value {
      return Some(PlayerNotForSession);
    }
    if s.players[k.value].turnOrder != s.currentTurnOrder {
      return Some(NotYourTurn);
    }
    AdvanceTurn(s);
    return None;
  }

  /** Normalising first changes nothing for advanceTurn, which normalises itself. */
  lemma AdvancedAfterNormalizing(g: Game)
    requires InPlay(g.session)
    ensures Advanced(NormalizedOrders(g)) == Advanced(g)
  {
    var g1 := NormalizedOrders(g);
    NormalizedOrdersSpec(g);
    NormalizePermutationUnchanged(g1);
    var n := |g1.players|;
    if n > 0 {
      var g2 := g1.(session := ResetTurn(g1.session, Successor(Clamp(g1.session.currentTurnOrder, n), n)));
      AdvancedSteps(g, g1, g2);
      AdvancedSteps(g1, g1, g2);
    }
  }

  /**
   * A handover succeeds exactly when the arguments are given, the session is this one, started,
   * unfinished and awaiting confirmation, and the caller holds the current order; it then is
   * advanceTurn. A refused handover leaves the session row as it was.
   */
  lemma HandoverSpec(g: Game, sessionId: Option<string>, playerId: Option<string>)
    ensures var (r, err) := HandoverConfirmed(g, sessionId, playerId);
      err.None? <==>
        !IsNullOrBlank(sessionId) && !IsNullOrBlank(playerId) && sessionId.value == g.session.id &&
        InPlay(g.session) && g.session.turnStatus == AwaitingConfirm &&
        FindPlayer(NormalizedOrders(g).players, playerId.value).Some? &&
        NormalizedOrders(g).players[FindPlayer(NormalizedOrders(g).players, playerId.value).value].sessionId == sessionId.value &&
        NormalizedOrders(g).players[FindPlayer(NormalizedOrders(g).players, playerId.value).value].turnOrder == g.session.currentTurnOrder
    ensures var (r, err) := HandoverConfirmed(g, sessionId, playerId);
      (err.None? ==> r == Advanced(g)) && (err.Some? ==> r.session == g.session && r.events == g.events)
  {
    NormalizedOrdersSpec(g);
    if InPlay(g.session) {
      AdvancedAfterNormalizing(g);
    }
  }

  // ---------------------------------------------------------------------------------------
  // handlePlayerLeft
  // ---------------------------------------------------------------------------------------

  /** The phase fields cleared when the turn holder leaves mid-turn; the current order stays. */
  function Unlocked(s: SessionState): SessionState
  {
    s.(turnStatus := AwaitingD6Roll, activeChallengeId := None, lastDiceRoll := None,
       pendingForkNodeId := None, pendingRemainingSteps := None)
  }

  /**
   * handlePlayerLeft as the source has it, on the players that remain. When the turn holder
   * leaves, the orders are normalised first, so the next player moves into the vacated order, and
   * advanceTurn then passes over that player.
   */
  function LeftAsWritten(g: Game, leavingOrder: int): Game
  {
    if g.session.status == Finished then Published(g, PlayerLeft)
    else if !g.session.started then Published(NormalizedOrders(g), PlayerLeft)
    else
      var g1 := NormalizedOrders(g);
      if leavingOrder > 0 && leavingOrder == g1.session.currentTurnOrder then LeftAtTurnAsWritten(g1)
      else LeftOther(g1)
  }

  /** The turn holder left, as written: the phase is unlocked, PLAYER_LEFT published and advanceTurn runs. */
  function LeftAtTurnAsWritten(g1: Game): Game
  {
    Advanced(Published(g1.(session := Unlocked(g1.session)), PlayerLeft))
  }

  /** Someone other than the turn holder left: the current order is only pulled back into 1..n. */
  function LeftOther(g1: Game): Game
  {
    var n := |g1.players|;
    if n <= 0 then g1
    else if g1.session.currentTurnOrder < 1 || g1.session.currentTurnOrder > n then
      Published(g1.(session := g1.session.(currentTurnOrder := 1)), PlayerLeft)
    else Published(g1, PlayerLeft)
  }

  /**
   * handlePlayerLeft as intended: when the turn holder leaves, the turn goes to the player who now
   * holds the vacated order (order 1 when the leaver held the last one), skips are consumed and
   * the turn is announced.
   */
  function Left(g: Game, leavingOrder: int): Game
  {
    if g.session.status == Finished then Published(g, PlayerLeft)
    else if !g.session.started then Published(NormalizedOrders(g), PlayerLeft)
    else
      var g1 := NormalizedOrders(g);
      if leavingOrder > 0 && leavingOrder == g1.session.currentTurnOrder then LeftAtTurn(g1)
      else LeftOther(g1)
  }

  /** The turn holder left: the phase is unlocked, PLAYER_LEFT published and the vacated order is up. */
  function LeftAtTurn(g1: Game): Game
  {
    var g2 := Published(g1.(session := Unlocked(g1.session)), PlayerLeft);
    var n := |g2.players|;
    if n == 0 then g2
    else Announced(ConsiderSkips(g2.(session := ResetTurn(g2.session, Clamp(g2.session.currentTurnOrder, n)))))
  }

  method HandlePlayerLeft(s: Session, leavingOrder: int)
    modifies s
    ensures s.Snap() == LeftAsWritten(old(s.Snap()), leavingOrder)
  {
    if s.status == Finished {
      PublishEvent(s, PlayerLeft);
      return;
    }
    if !s.started {
      NormalizeTurnOrders(s);
      PublishEvent(s, PlayerLeft);
      return;
    }
    NormalizeTurnOrders(s);
    if leavingOrder > 0 && leavingOrder == s.currentTurnOrder {
      LeaveAtTurn(s);
    } else {
      LeaveOther(s);
    }
  }

  method LeaveAtTurn(s: Session)
    modifies s
    ensures s.Snap() == LeftAtTurnAsWritten(old(s.Snap()))
  {
    s.Unlock();
    PublishEvent(s, PlayerLeft);
    AdvanceTurn(s);
  }

  method LeaveOther(s: Session)
    modifies s
    ensures s.Snap() == LeftOther(old(s.Snap()))
  {
    var n := |s.players|;
    if n <= 0 {
      return;
    }
    if s.currentTurnOrder < 1 || s.currentTurnOrder > n {
      s.currentTurnOrder := 1;
    }
    PublishEvent(s, PlayerLeft);
  }

  /**
   * After anyone leaves a started game with players left, the orders are 1..n and the current
   * order lies in 1..n, both as written and under the corrected rule.
   */
  lemma PlayerLeftKeepsTurnInRange(g: Game, leavingOrder: int)
    requires InPlay(g.session) && |g.players| > 0
    ensures OrdersArePermutation(LeftAsWritten(g, leavingOrder).players)
    ensures 1 <= LeftAsWritten(g, leavingOrder).session.currentTurnOrder <= |g.players|
    ensures |LeftAsWritten(g, leavingOrder).players| == |g.players|
    ensures OrdersArePermutation(Left(g, leavingOrder).players)
    ensures 1 <= Left(g, leavingOrder).session.currentTurnOrder <= |g.players|
    ensures |Left(g, leavingOrder).players| == |g.players|
  {
    LeftAsWrittenInRange(g, leavingOrder);
    LeftInRange(g, leavingOrder);
  }

  lemma LeftAsWrittenInRange(g: Game, leavingOrder: int)
    requires InPlay(g.session) && |g.players| > 0
    ensures OrdersArePermutation(LeftAsWritten(g, leavingOrder).players)
    ensures 1 <= LeftAsWritten(g, leavingOrder).session.currentTurnOrder <= |g.players|
    ensures |LeftAsWritten(g, leavingOrder).players| == |g.players|
  {
    var g1 := NormalizedOrders(g);
    NormalizedOrdersSpec(g);
    if leavingOrder > 0 && leavingOrder == g1.session.currentTurnOrder {
      AdvancedInRange(Published(g1.(session := Unlocked(g1.session)), PlayerLeft));
    }
  }

  lemma LeftInRange(g: Game, leavingOrder: int)
    requires InPlay(g.session) && |g.players| > 0
    ensures OrdersArePermutation(Left(g, leavingOrder).players)
    ensures 1 <= Left(g, leavingOrder).session.currentTurnOrder <= |g.players|
    ensures |Left(g, leavingOrder).players| == |g.players|
  {
    var g1 := NormalizedOrders(g);
    NormalizedOrdersSpec(g);
    var n := |g.players|;
    if leavingOrder > 0 && leavingOrder == g1.session.currentTurnOrder {
      var g2 := Published(g1.(session := Unlocked(g1.session)), PlayerLeft);
      var g3 := g2.(session := ResetTurn(g2.session, Clamp(g2.session.currentTurnOrder, n)));
      ConsiderSkipsClosedForm(g3);
      var c := Clamp(g2.session.currentTurnOrder, n);
      var k := Run(g3.players, n, c, n);
      if k > 0 {
        var h := Published(SkipTo(g3, c, k, n), TurnNext);
        SkipFirstSameOrders(g3.players, c, k, n);
        SameOrdersPermutation(h.players, g3.players);
        CycRange(c, k, n);
        AnnouncedInRange(h);
      } else {
        AnnouncedInRange(g3);
      }
    }
  }

  /** When the turn holder leaves and nobody has skips left, the player who now holds the vacated order c is up. */
  lemma PlayerLeftHandsToSuccessor(g: Game, c: int)
    requires InPlay(g.session) && |g.players| > 0 && c > 0 && c == g.session.currentTurnOrder
    requires forall i :: 0 <= i < |g.players| ==> g.players[i].skipTurns <= 0
    ensures Left(g, c).session.currentTurnOrder == Clamp(c, |g.players|)
    ensures Left(g, c).players == NormalizedOrders(g).players
    ensures Left(g, c).events == HolderLeftLog(g.events, g.session.lastEventSeq)
  {
    LeftIsAtTurn(g, c);
    HolderLeftNoSkip(g, c);
  }

  lemma HolderLeftNoSkip(g: Game, c: int)
    requires InPlay(g.session) && |g.players| > 0 && c > 0 && c == g.session.currentTurnOrder
    requires forall i :: 0 <= i < |g.players| ==> g.players[i].skipTurns <= 0
    ensures LeftAtTurn(NormalizedOrders(g)).session.currentTurnOrder == Clamp(c, |g.players|)
    ensures LeftAtTurn(NormalizedOrders(g)).players == NormalizedOrders(g).players
    ensures LeftAtTurn(NormalizedOrders(g)).events == HolderLeftLog(g.events, g.session.lastEventSeq)
  {
    var g1 := NormalizedOrders(g);
    NormalizedFrame(g);
    NoSkipsNormalized(g, Clamp(c, |g.players|));
    assert g1.session.currentTurnOrder == c && |g1.players| == |g.players|;
    assert !HasSkips(g1.players, Clamp(g1.session.currentTurnOrder, |g1.players|));
    LeftAtTurnNoSkip(g1, g.events, g.session.lastEventSeq);
  }

  lemma LeftIsAtTurn(g: Game, c: int)
    requires InPlay(g.session) && c > 0 && c == g.session.currentTurnOrder
    ensures Left(g, c) == LeftAtTurn(NormalizedOrders(g))
  {
    NormalizedFrame(g);
  }

  /** The log after the turn holder left and the next player was announced. */
  function HolderLeftLog(log: seq<GameEvent>, last: int): seq<GameEvent>
  {
    log + [GameEvent(last + 1, PlayerLeft), GameEvent(last + 2, TurnNext)]
  }

  lemma LeftAtTurnNoSkip(g1: Game, log: seq<GameEvent>, last: int)
    requires InPlay(g1.session) && OrdersArePermutation(g1.players) && |g1.players| > 0
    requires !HasSkips(g1.players, Clamp(g1.session.currentTurnOrder, |g1.players|))
    requires g1.events == log && g1.session.lastEventSeq == last
    ensures LeftAtTurn(g1).session.currentTurnOrder == Clamp(g1.session.currentTurnOrder, |g1.players|)
    ensures LeftAtTurn(g1).players == g1.players
    ensures LeftAtTurn(g1).events == HolderLeftLog(log, last)
  {
    var n := |g1.players|;
    var g2 := Published(g1.(session := Unlocked(g1.session)), PlayerLeft);
    var g3 := g2.(session := ResetTurn(g2.session, Clamp(g1.session.currentTurnOrder, n)));
    ConsiderSkipsNoSkip(g3);
    AnnouncedInRange(g3);
  }

  /**
   * As written, when the holder of order c leaves and nobody has skips left, advanceTurn hands the
   * turn to the order after c (after 1 when c is past the end), passing over the player who has
   * just moved down into order c; with two or more players left that differs from the corrected rule.
   */
  lemma PlayerLeftAsWrittenPassesOver(g: Game, c: int)
    requires InPlay(g.session) && |g.players| > 0 && c > 0 && c == g.session.currentTurnOrder
    requires forall i :: 0 <= i < |g.players| ==> g.players[i].skipTurns <= 0
    ensures LeftAsWritten(g, c).session.currentTurnOrder == Successor(Clamp(c, |g.players|), |g.players|)
    ensures LeftAsWritten(g, c).players == NormalizedOrders(g).players
    ensures LeftAsWritten(g, c).events == HolderLeftLog(g.events, g.session.lastEventSeq)
    ensures |g.players| >= 2 ==> LeftAsWritten(g, c).session.currentTurnOrder != Left(g, c).session.currentTurnOrder
  {
    LeftAsWrittenIsAtTurn(g, c);
    HolderLeftAsWrittenNoSkip(g, c);
    PlayerLeftHandsToSuccessor(g, c);
  }

  lemma LeftAsWrittenIsAtTurn(g: Game, c: int)
    requires InPlay(g.session) && c > 0 && c == g.session.currentTurnOrder
    ensures LeftAsWritten(g, c) == LeftAtTurnAsWritten(NormalizedOrders(g))
  {
    NormalizedFrame(g);
  }

  lemma HolderLeftAsWrittenNoSkip(g: Game, c: int)
    requires InPlay(g.session) && |g.players| > 0 && c == g.session.currentTurnOrder
    requires forall i :: 0 <= i < |g.players| ==> g.players[i].skipTurns <= 0
    ensures LeftAtTurnAsWritten(NormalizedOrders(g)).session.currentTurnOrder == Successor(Clamp(c, |g.players|), |g.players|)
    ensures LeftAtTurnAsWritten(NormalizedOrders(g)).players == NormalizedOrders(g).players
    ensures LeftAtTurnAsWritten(NormalizedOrders(g)).events == HolderLeftLog(g.events, g.session.lastEventSeq)
  {
    var n := |g.players|;
    var g1 := NormalizedOrders(g);
    NormalizedFrame(g);
    NoSkipsNormalized(g, Successor(Clamp(c, n), n));
    LeftAtTurnAsWrittenNoSkip(g1, g.events, g.session.lastEventSeq);
  }

  lemma LeftAtTurnAsWrittenNoSkip(g1: Game, log: seq<GameEvent>, last: int)
    requires InPlay(g1.session) && OrdersArePermutation(g1.players) && |g1.players| > 0
    requires !HasSkips(g1.players, Successor(Clamp(g1.session.currentTurnOrder, |g1.players|), |g1.players|))
    requires g1.events == log && g1.session.lastEventSeq == last
    ensures LeftAtTurnAsWritten(g1).session.currentTurnOrder == Successor(Clamp(g1.session.currentTurnOrder, |g1.players|), |g1.players|)
    ensures LeftAtTurnAsWritten(g1).players == g1.players
    ensures LeftAtTurnAsWritten(g1).events == HolderLeftLog(log, last)
  {
    var n := |g1.players|;
    var g2 := Published(g1.(session := Unlocked(g1.session)), PlayerLeft);
    assert g2.players == g1.players && InPlay(g2.session);
    assert g2.session.currentTurnOrder == g1.session.currentTurnOrder;
    NormalizePermutationUnchanged(g2);
    AdvancedWithoutSkips(g2);
    var next := Successor(Clamp(g1.session.currentTurnOrder, n), n);
    assert Advanced(g2) == Published(g2.(session := ResetTurn(g2.session, next)), TurnNext);
  }

  // ---------------------------------------------------------------------------------------
  // finishSession
  // ---------------------------------------------------------------------------------------

  /** A finished session stays as it is; otherwise it ends with the winner and GAME_FINISHED. */
  function Ended(g: Game, winner: Option<string>): Game
  {
    if g.session.status == Finished then g
    else
      Published(g.(session := g.session.(status := Finished, winnerPlayerId := winner, turnStatus := Idle,
        activeChallengeId := None, pendingForkNodeId := None, pendingRemainingSteps := None, lastDiceRoll := None)),
        GameFinished)
  }

  /**
   * finishSession's argument checks; winnerRequired selects the two-argument overload, which also
   * demands a winner id.
   */
  function FinishOutcome(g: Game, sessionId: Option<string>, winner: Option<string>, winnerRequired: bool): Result<Game, ServiceError>
  {
    if IsNullOrBlank(sessionId) then Err(SessionIdRequired)
    else if winnerRequired && IsNullOrBlank(winner) then Err(WinnerIdRequired)
    else if sessionId.value != g.session.id then Err(SessionNotFound)
    else Ok(Ended(g, winner))
  }

  method FinishSession(s: Session, sessionId: Option<string>, winner: Option<string>, winnerRequired: bool)
    returns (err: Option<ServiceError>)
    modifies s
    ensures FinishOutcome(old(s.Snap()), sessionId, winner, winnerRequired)
         == if err.Some? then Err(err.value) else Ok(s.Snap())
    ensures err.Some? ==> s.Snap() == old(s.Snap())
  {
    if IsNullOrBlank(sessionId) {
      return Some(SessionIdRequired);
    }
    if winnerRequired && IsNullOrBlank(winner) {
      return Some(WinnerIdRequired);
    }
    if sessionId.value != s.id {
      return Some(SessionNotFound);
    }
    End(s, winner);
    return None;
  }

  method End(s: Session, winner: Option<string>)
    modifies s
    ensures s.Snap() == Ended(old(s.Snap()), winner)
  {
    if s.status == Finished {
      return;
    }
    s.MarkFinished(winner);
    PublishEvent(s, GameFinished);
  }

  /** Finishing twice is finishing once: the first winner stays, no second event is published. */
  lemma FinishIdempotent(g: Game, sessionId: Option<string>, w1: Option<string>, w2: Option<string>, req: bool)
    requires FinishOutcome(g, sessionId, w1, req).Ok?
    ensures FinishOutcome(FinishOutcome(g, sessionId, w1, req).value, sessionId, w2, false)
         == FinishOutcome(g, sessionId, w1, req)
  {
  }

  /** The end of an unfinished game: the fields set, players kept, one GAME_FINISHED under lastEventSeq + 1. */
  lemma FinishedSpec(g: Game, winner: Option<string>)
    requires g.session.status != Finished
    ensures var r := Ended(g, winner);
      r.session.status == Finished && r.session.winnerPlayerId == winner && r.session.turnStatus == Idle &&
      r.session.activeChallengeId == None && r.session.pendingForkNodeId == None &&
      r.session.pendingRemainingSteps == None && r.session.lastDiceRoll == None &&
      r.session.lastEventSeq == g.session.lastEventSeq + 1 &&
      r.session.currentTurnOrder == g.session.currentTurnOrder && r.session.started == g.session.started &&
      r.players == g.players && r.events == g.events + [GameEvent(g.session.lastEventSeq + 1, GameFinished)]
    ensures LogConsistent(g) ==> LogConsistent(Ended(g, winner))
  {
    var h := g.(session := g.session.(status := Finished, winnerPlayerId := winner, turnStatus := Idle,
        activeChallengeId := None, pendingForkNodeId := None, pendingRemainingSteps := None, lastDiceRoll := None));
    if LogConsistent(g) {
      assert LogConsistent(h);
      PublishKeepsLogConsistent(h, GameFinished);
    }
  }

  /** The finished game accepts no turn actions. */
  lemma FinishedBlocksTurns(g: Game, winner: Option<string>)
    ensures !InPlay(Ended(g, winner).session)
    ensures Advanced(Ended(g, winner)) == Ended(g, winner)
  {
  }
}
