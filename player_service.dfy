/**
 * Joining a session (PlayerService.registerPlayer). The name is trimmed; a player of the same
 * session whose name matches case-insensitively is returned as it is, so joining twice under
 * one name yields one player; otherwise a new player is stored with a fresh id. The fresh id
 * (a random UUID) and the creation time are parameters.
 */
module PlayerService {
  import opened Wrappers
  import opened JavaStrings
  import opened GameModel

  /** The IllegalArgumentException messages of registerPlayer (the texts are not modelled). */
  datatype RegisterError = SessionIdRequired | NameRequired | SessionNotFound

  /** The first player of the session whose name equals name ignoring case (findBySessionIdAndNameIgnoreCase). */
  function FindByName(ps: seq<Player>, sessionId: string, name: string): (r: Option<nat>)
    ensures r.Some? ==> r.value < |ps| && ps[r.value].sessionId == sessionId && EqualsIgnoreCase(ps[r.value].name, name)
    ensures r.Some? ==> forall i :: 0 <= i < r.value ==> !(ps[i].sessionId == sessionId && EqualsIgnoreCase(ps[i].name, name))
    ensures r.None? <==> forall i :: 0 <= i < |ps| ==> !(ps[i].sessionId == sessionId && EqualsIgnoreCase(ps[i].name, name))
  {
    if ps == [] then None
    else if ps[0].sessionId == sessionId && EqualsIgnoreCase(ps[0].name, name) then Some(0)
    else match FindByName(ps[1..], sessionId, name)
      case None => None
      case Some(k) => Some(k + 1)
  }

  /** A new player as `new Player()` and the three setters leave it: every other field at its default. */
  function NewPlayer(id: string, sessionId: string, name: string, createdAt: int): Player
  {
    Player(id, sessionId, name, createdAt, 0, None, 0, None, None, false, 0, false, false, false, false, None)
  }

  /** registerPlayer: the checks, then the existing player of that name or a newly stored one. */
  function Registered(g: Game, sessionId: Option<string>, name: Option<string>, freshId: string, now: int)
    : (r: (Game, Result<Player, RegisterError>))
    ensures r.1.Err? <==> IsNullOrBlank(sessionId) || IsNullOrBlank(name) || sessionId.value != g.session.id
    ensures r.1.Err? ==> r.0 == g
    ensures r.1.Ok? ==> r.1.value.sessionId == sessionId.value && EqualsIgnoreCase(r.1.value.name, Trim(name.value))
    ensures r.1.Ok? ==> r.0.session == g.session && r.0.events == g.events
  {
    if IsNullOrBlank(sessionId) then (g, Err(SessionIdRequired))
    else if IsNullOrBlank(name) then (g, Err(NameRequired))
    else if sessionId.value != g.session.id then (g, Err(SessionNotFound))
    else
      var trimmed := Trim(name.value);
      match FindByName(g.players, sessionId.value, trimmed)
      case Some(k) => (g, Ok(g.players[k]))
      case None =>
        var p := NewPlayer(freshId, sessionId.value, trimmed, now);
        (g.(players := g.players + [p]), Ok(p))
  }

  method RegisterPlayer(s: Session, sessionId: Option<string>, name: Option<string>, freshId: string, now: int)
    returns (result: Result<Player, RegisterError>)
    modifies s
    ensures (s.Snap(), result) == Registered(old(s.Snap()), sessionId, name, freshId, now)
  {
    if IsNullOrBlank(sessionId) {
      return Err(SessionIdRequired);
    }
    if IsNullOrBlank(name) {
      return Err(NameRequired);
    }
    if sessionId.value != s.id {
      return Err(SessionNotFound);
    }
    var trimmed := Trim(name.value);
    var existing := FindByName(s.players, sessionId.value, trimmed);
    if existing.Some? {
      return Ok(s.players[existing.value]);
    }
    var p := NewPlayer(freshId, sessionId.value, trimmed, now);
    s.players := s.players + [p];
    return Ok(p);
  }

  // ---------------------------------------------------------------------------------------
  // Properties
  // ---------------------------------------------------------------------------------------

  lemma EqualsIgnoreCaseSymmetric(a: string, b: string)
    ensures EqualsIgnoreCase(a, b) == EqualsIgnoreCase(b, a)
  {
  }

  lemma EqualsIgnoreCaseTransitive(a: string, b: string, c: string)
    requires EqualsIgnoreCase(a, b) && EqualsIgnoreCase(b, c)
    ensures EqualsIgnoreCase(a, c)
  {
  }

  /** A new player is stored with the trimmed name, the session id, no turn order and a zero score. */
  lemma NewPlayerStored(g: Game, sessionId: Option<string>, name: Option<string>, freshId: string, now: int)
    requires Registered(g, sessionId, name, freshId, now).1.Ok?
    requires FindByName(g.players, sessionId.value, Trim(name.value)).None?
    ensures var (r, p) := Registered(g, sessionId, name, freshId, now);
      p.value.id == freshId && p.value.name == Trim(name.value) && p.value.sessionId == sessionId.value &&
      p.value.turnOrder == 0 && p.value.totalScore == 0 && p.value.skipTurns == 0 &&
      r.players == g.players + [p.value]
  {
  }

  /** A name already taken in the session, in any case, returns that player and stores nothing. */
  lemma ExistingNameReturned(g: Game, sessionId: Option<string>, name: Option<string>, freshId: string, now: int, k: nat)
    requires !IsNullOrBlank(sessionId) && !IsNullOrBlank(name) && sessionId.value == g.session.id
    requires k < |g.players| && g.players[k].sessionId == sessionId.value
    requires EqualsIgnoreCase(g.players[k].name, Trim(name.value))
    requires forall i :: 0 <= i < k ==> g.players[i].sessionId != sessionId.value || !EqualsIgnoreCase(g.players[i].name, g.players[k].name)
    ensures Registered(g, sessionId, name, freshId, now) == (g, Ok(g.players[k]))
  {
  }

  /** Names in a session are distinct ignoring case. */
  ghost predicate DistinctNames(ps: seq<Player>)
  {
    forall i, j :: 0 <= i < j < |ps| && ps[i].sessionId == ps[j].sessionId ==> !EqualsIgnoreCase(ps[i].name, ps[j].name)
  }

  /** Registration keeps the names of a session distinct ignoring case. */
  lemma RegisterKeepsNamesDistinct(g: Game, sessionId: Option<string>, name: Option<string>, freshId: string, now: int)
    requires DistinctNames(g.players)
    ensures DistinctNames(Registered(g, sessionId, name, freshId, now).0.players)
  {
    var (r, res) := Registered(g, sessionId, name, freshId, now);
    if res.Ok? && r.players != g.players {
      var trimmed := Trim(name.value);
      var ps := r.players;
      forall i, j | 0 <= i < j < |ps| && ps[i].sessionId == ps[j].sessionId
        ensures !EqualsIgnoreCase(ps[i].name, ps[j].name)
      {
        if j == |g.players| {
          assert ps[j].name == trimmed && ps[i] == g.players[i];
        }
      }
    }
  }

  /**
   * Registration is idempotent: registering again under the same name, in any case and with
   * any padding, returns the same player and changes nothing.
   */
  lemma RegisterIdempotent(g: Game, sessionId: Option<string>, name: Option<string>, name2: Option<string>,
                           freshId: string, freshId2: string, now: int, now2: int)
    requires DistinctNames(g.players)
    requires Registered(g, sessionId, name, freshId, now).1.Ok?
    requires !IsNullOrBlank(name2) && EqualsIgnoreCase(Trim(name2.value), Trim(name.value))
    ensures var (g1, p) := Registered(g, sessionId, name, freshId, now);
      Registered(g1, sessionId, name2, freshId2, now2) == (g1, p)
  {
    var (g1, p) := Registered(g, sessionId, name, freshId, now);
    RegisterKeepsNamesDistinct(g, sessionId, name, freshId, now);
    var trimmed := Trim(name.value);
    var k: nat;
    match FindByName(g.players, sessionId.value, trimmed) {
      case Some(j) => k := j;
      case None => k := |g.players|;
    }
    assert g1.players[k] == p.value;
    EqualsIgnoreCaseSymmetric(Trim(name2.value), trimmed);
    EqualsIgnoreCaseTransitive(g1.players[k].name, trimmed, Trim(name2.value));
    ExistingNameReturned(g1, sessionId, name2, freshId2, now2, k);
  }
}
