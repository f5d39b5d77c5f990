/**
 * The checks the game controllers (SpecialCardController, ChallengeController) make before
 * acting for a player, and the HTTP statuses they refuse with.
 */
module ControllerGuards {
  import opened Wrappers
  import opened GameModel

  /** 400, 409, 403 and 423: the request is answered with the status and nothing is changed. */
  datatype Refusal = BadRequest | Conflict | Forbidden | Locked

  /**
   * The session and the player must be known and belong together (400), the game must be
   * running (409), and the player must hold the current order, which is above zero (403).
   * On success, the player's position among the players.
   */
  function PlayerTurn(g: Game, sessionId: string, playerId: string): (r: Result<nat, Refusal>)
    ensures r.Ok? ==> r.value < |g.players| && g.players[r.value].id == playerId
    ensures r.Ok? <==>
      (sessionId == g.session.id && FindPlayer(g.players, playerId).Some? &&
       g.players[FindPlayer(g.players, playerId).value].sessionId == sessionId &&
       InPlay(g.session) && 0 < g.session.currentTurnOrder &&
       g.players[FindPlayer(g.players, playerId).value].turnOrder == g.session.currentTurnOrder)
    ensures r == Err(BadRequest) <==>
      (sessionId != g.session.id || FindPlayer(g.players, playerId).None? ||
       g.players[FindPlayer(g.players, playerId).value].sessionId != sessionId)
    ensures r == Err(Conflict) <==>
      (r != Err(BadRequest) && !InPlay(g.session))
    ensures r.Err? ==> r.error != Locked
  {
    if sessionId != g.session.id then Err(BadRequest)
    else match FindPlayer(g.players, playerId)
      case None => Err(BadRequest)
      case Some(k) =>
        if g.players[k].sessionId != sessionId then Err(BadRequest)
        else if !g.session.started || g.session.status == Finished then Err(Conflict)
        else if g.session.currentTurnOrder <= 0 || g.players[k].turnOrder != g.session.currentTurnOrder then Err(Forbidden)
        else Ok(k)
  }
}
