/**
 * The state the server's game services work on: one game session and the players who joined it,
 * in join (createdAt) order, and the session's event log. The session is a record whose fields
 * the services update one setter at a time; the class Session holds one field per setter and
 * Snap() reads the whole state out as a value, so each service operation can be specified as a
 * function from the old value to the new one.
 */
module GameModel {
  import opened Wrappers
  import opened JavaStrings

  datatype SessionStatus = Lobby | InProgress | Finished

  /**
   * The turn phase. AwaitingSpecialCard is the phase the special-card endpoint waits for;
   * Unset stands for a null turnStatus, which older rows may hold.
   */
  datatype TurnPhase =
    | Idle
    | InChallenge
    | AwaitingConfirm
    | AwaitingD6Roll
    | AwaitingPathChoice
    | AwaitingSpecialCard
    | Unset

  /** A player as the services see it: the fields their setters and getters touch. */
  datatype Player = Player(
    id: string,
    sessionId: string,
    name: string,
    createdAt: int,
    turnOrder: int,
    positionNodeId: Option<string>,
    skipTurns: int,
    jailReturnNodeId: Option<string>,
    lobbyRoll: Option<int>,
    ready: bool,
    totalScore: int,
    ignoreNextPositiveSpecial: bool,
    nextDiceAdvantage: bool,
    nextHardBecomesMedium: bool,
    nextHardBecomesEasy: bool,
    lastChallengeCategory: Option<string>)

  /** Event types of the session's event feed; the message texts are not modelled. */
  datatype EventType =
    | TurnSkipped
    | TurnNext
    | PlayerLeft
    | GameFinished
    | SpecialIgnored
    | SpecialPlayed

  datatype GameEvent = GameEvent(seqNo: int, eventType: EventType)

  datatype SessionState = SessionState(
    id: string,
    status: SessionStatus,
    started: bool,
    turnOrderLocked: bool,
    currentTurnOrder: int,
    turnStatus: TurnPhase,
    activeChallengeId: Option<string>,
    lastDiceRoll: Option<int>,
    pendingForkNodeId: Option<string>,
    pendingRemainingSteps: Option<int>,
    winnerPlayerId: Option<string>,
    lastEventSeq: int,
    lastEventType: Option<EventType>)

  /** A whole game: the session row, its players in join order, and its event log. */
  datatype Game = Game(session: SessionState, players: seq<Player>, events: seq<GameEvent>)

  /** A session that accepts turn actions. */
  predicate InPlay(s: SessionState)
  {
    s.started && s.status != Finished
  }

  /** The position of the player with the given id, if any. */
  function FindPlayer(ps: seq<Player>, id: string): (r: Option<nat>)
    ensures r.Some? ==> r.value < |ps| && ps[r.value].id == id
    ensures r.None? <==> forall i :: 0 <= i < |ps| ==> ps[i].id != id
  {
    if ps == [] then None
    else if ps[0].id == id then Some(0)
    else match FindPlayer(ps[1..], id)
      case None => None
      case Some(k) => Some(k + 1)
  }

  /** The first player (in join order) holding the given turn order, if any. */
  function FirstWithOrder(ps: seq<Player>, order: int): (r: Option<nat>)
    ensures r.Some? ==> r.value < |ps| && ps[r.value].turnOrder == order
    ensures r.Some? ==> forall j :: 0 <= j < r.value ==> ps[j].turnOrder != order
    ensures r.None? <==> forall i :: 0 <= i < |ps| ==> ps[i].turnOrder != order
  {
    if ps == [] then None
    else if ps[0].turnOrder == order then Some(0)
    else match FirstWithOrder(ps[1..], order)
      case None => None
      case Some(k) => Some(k + 1)
  }

  /** The turn orders of the players are exactly 1..n, each held once. */
  ghost predicate OrdersArePermutation(ps: seq<Player>)
  {
    (forall i :: 0 <= i < |ps| ==> 1 <= ps[i].turnOrder <= |ps|) &&
    (forall i, j :: 0 <= i < |ps| && 0 <= j < |ps| && i != j ==> ps[i].turnOrder != ps[j].turnOrder)
  }

  /** Hands the turn to order next: waiting for the die, no challenge, dice or fork pending. */
  function ResetTurn(s: SessionState, next: int): SessionState
  {
    s.(currentTurnOrder := next, turnStatus := AwaitingD6Roll, activeChallengeId := None,
       lastDiceRoll := None, pendingForkNodeId := None, pendingRemainingSteps := None)
  }

  /** The session a fresh game starts from (GameSessionService.createNew). */
  function NewSession(id: string): SessionState
  {
    SessionState(id, Lobby, false, false, 0, Idle, None, None, None, None, None, 0, None)
  }

  /**
   * The session row and its players, updated in place by the services. Players are values in a
   * sequence; a service that changes a player writes the changed record back at its position.
   */
  class Session {
    const id: string
    var status: SessionStatus
    var started: bool
    var turnOrderLocked: bool
    var currentTurnOrder: int
    var turnStatus: TurnPhase
    var activeChallengeId: Option<string>
    var lastDiceRoll: Option<int>
    var pendingForkNodeId: Option<string>
    var pendingRemainingSteps: Option<int>
    var winnerPlayerId: Option<string>
    var lastEventSeq: int
    var lastEventType: Option<EventType>
    var players: seq<Player>
    var events: seq<GameEvent>

    function State(): SessionState
      reads this
    {
      SessionState(id, status, started, turnOrderLocked, currentTurnOrder, turnStatus,
        activeChallengeId, lastDiceRoll, pendingForkNodeId, pendingRemainingSteps,
        winnerPlayerId, lastEventSeq, lastEventType)
    }

    function Snap(): Game
      reads this
    {
      Game(State(), players, events)
    }

    /** A fresh session in the lobby with no players and no events. */
    constructor (sessionId: string)
      ensures Snap() == Game(NewSession(sessionId), [], [])
    {
      id := sessionId;
      status := Lobby;
      started := false;
      turnOrderLocked := false;
      currentTurnOrder := 0;
      turnStatus := Idle;
      activeChallengeId := None;
      lastDiceRoll := None;
      pendingForkNodeId := None;
      pendingRemainingSteps := None;
      winnerPlayerId := None;
      lastEventSeq := 0;
      lastEventType := None;
      players := [];
      events := [];
    }

    /** The six setters the services call together whenever the turn passes to order next. */
    method PassTurnTo(next: int)
      modifies this
      ensures Snap() == old(Snap()).(session := ResetTurn(old(State()), next))
    {
      currentTurnOrder := next;
      turnStatus := AwaitingD6Roll;
      activeChallengeId := None;
      lastDiceRoll := None;
      pendingForkNodeId := None;
      pendingRemainingSteps := None;
    }

    /** The setters handlePlayerLeft calls when the turn holder leaves: the die is awaited, nothing pending. */
    method Unlock()
      modifies this
      ensures Snap() == old(Snap()).(session := old(State()).(turnStatus := AwaitingD6Roll, activeChallengeId := None,
        lastDiceRoll := None, pendingForkNodeId := None, pendingRemainingSteps := None))
    {
      turnStatus := AwaitingD6Roll;
      activeChallengeId := None;
      lastDiceRoll := None;
      pendingForkNodeId := None;
      pendingRemainingSteps := None;
    }

    /** The setters finishSession calls: finished with the winner, idle, nothing pending. */
    method MarkFinished(winner: Option<string>)
      modifies this
      ensures Snap() == old(Snap()).(session := old(State()).(status := Finished, winnerPlayerId := winner,
        turnStatus := Idle, activeChallengeId := None, pendingForkNodeId := None, pendingRemainingSteps := None,
        lastDiceRoll := None))
    {
      status := Finished;
      winnerPlayerId := winner;
      turnStatus := Idle;
      activeChallengeId := None;
      pendingForkNodeId := None;
      pendingRemainingSteps := None;
      lastDiceRoll := None;
    }

    /** The fork pause of moveSteps: the path choice is awaited at fork with remaining steps. */
    method AwaitPathChoice(fork: string, remaining: int)
      modifies this
      ensures Snap() == old(Snap()).(session := old(State()).(turnStatus := AwaitingPathChoice,
        pendingForkNodeId := Some(fork), pendingRemainingSteps := Some(remaining)))
    {
      turnStatus := AwaitingPathChoice;
      pendingForkNodeId := Some(fork);
      pendingRemainingSteps := Some(remaining);
    }

    /** The two setters that drop a pending fork. */
    method ClearFork()
      modifies this
      ensures Snap() == old(Snap()).(session := old(State()).(pendingForkNodeId := None, pendingRemainingSteps := None))
    {
      pendingForkNodeId := None;
      pendingRemainingSteps := None;
    }

    method SetTurnStatus(t: TurnPhase)
      modifies this
      ensures Snap() == old(Snap()).(session := old(State()).(turnStatus := t))
    {
      turnStatus := t;
    }

    method SetActiveChallengeId(challengeId: Option<string>)
      modifies this
      ensures Snap() == old(Snap()).(session := old(State()).(activeChallengeId := challengeId))
    {
      activeChallengeId := challengeId;
    }

    method SetLastDiceRoll(roll: Option<int>)
      modifies this
      ensures Snap() == old(Snap()).(session := old(State()).(lastDiceRoll := roll))
    {
      lastDiceRoll := roll;
    }

    /** Writes a changed player record back at its position. */
    method SetPlayer(i: nat, p: Player)
      requires i < |players|
      modifies this
      ensures Snap() == old(Snap()).(players := old(players)[i := p])
    {
      players := players[i := p];
    }
  }
}
