/**
 * Saving a minigame score (ScoreService.saveScore): the submission must come from the player
 * whose turn it is, for the challenge instance the turn is locked to. The points are normalised
 * to the fixed base of the difficulty, added to the player's total, and the turn is unlocked and
 * advanced. The stored Score row, its id and its timestamp are not modelled.
 */
module ScoreService {
  import opened Wrappers
  import opened JavaStrings
  import opened GameModel
  import opened GameSessionService
  import opened TurnOutcomes

  /** A score submission: the fields saveScore reads, and the player name it fills in. */
  datatype Score = Score(
    sessionId: Option<string>,
    playerId: Option<string>,
    challengeId: Option<string>,
    difficulty: Option<string>,
    points: int,
    playerName: Option<string>)

  /** The IllegalArgumentException messages of saveScore (the texts are not modelled). */
  datatype ScoreError =
    | SessionIdRequired
    | PlayerIdRequired
    | SessionNotFound
    | PlayerNotFound
    | PlayerNotForSession
    | SessionNotStarted
    | SessionFinished
    | TurnNotInitialized
    | NotYourTurn
    | NoActiveChallenge
    | ChallengeIdRequired
    | ChallengeIdMismatch

  /**
   * The checks of saveScore in their order; on success the position of the submitting player.
   * A session id other than the modelled session's is a session that is not found.
   */
  function ScoreCheck(g: Game, score: Score): (r: Result<nat, ScoreError>)
    ensures r.Ok? <==>
      (!IsNullOrBlank(score.sessionId) && !IsNullOrBlank(score.playerId) &&
       score.sessionId.value == g.session.id &&
       FindPlayer(g.players, score.playerId.value).Some? &&
       g.players[FindPlayer(g.players, score.playerId.value).value].sessionId == score.sessionId.value &&
       InPlay(g.session) && 0 < g.session.currentTurnOrder &&
       g.players[FindPlayer(g.players, score.playerId.value).value].turnOrder == g.session.currentTurnOrder &&
       g.session.turnStatus == InChallenge &&
       !IsNullOrBlank(score.challengeId) && g.session.activeChallengeId == score.challengeId)
    ensures r.Ok? ==> r.value < |g.players| && g.players[r.value].id == score.playerId.value
    ensures g.session.turnStatus != InChallenge ==> r.Err?
  {
    if IsNullOrBlank(score.sessionId) then Err(SessionIdRequired)
    else if IsNullOrBlank(score.playerId) then Err(PlayerIdRequired)
    else if score.sessionId.value != g.session.id then Err(SessionNotFound)
    else match FindPlayer(g.players, score.playerId.value)
      case None => Err(PlayerNotFound)
      case Some(k) =>
        var p := g.players[k];
        if p.sessionId != score.sessionId.value then Err(PlayerNotForSession)
        else if !g.session.started then Err(SessionNotStarted)
        else if g.session.status == Finished then Err(SessionFinished)
        else if g.session.currentTurnOrder <= 0 then Err(TurnNotInitialized)
        else if p.turnOrder != g.session.currentTurnOrder then Err(NotYourTurn)
        else if g.session.turnStatus != InChallenge then Err(NoActiveChallenge)
        else if IsNullOrBlank(score.challengeId) then Err(ChallengeIdRequired)
        else if g.session.activeChallengeId.None? || g.session.activeChallengeId != score.challengeId then Err(ChallengeIdMismatch)
        else Ok(k)
  }

  /** expectedBasePoints: 5, 10 or 15 for the trimmed, upper-cased EASY, MEDIUM or HARD, else 0. */
  function ExpectedBasePoints(difficulty: Option<string>): (r: int)
    ensures r == 0 || r == 5 || r == 10 || r == 15
    ensures difficulty.None? ==> r == 0
    ensures difficulty.Some? ==>
      (r == 5 <==> ToUpper(Trim(difficulty.value)) == "EASY") &&
      (r == 10 <==> ToUpper(Trim(difficulty.value)) == "MEDIUM") &&
      (r == 15 <==> ToUpper(Trim(difficulty.value)) == "HARD")
  {
    if difficulty.None? then 0
    else
      var d := ToUpper(Trim(difficulty.value));
      if d == "EASY" then 5
      else if d == "MEDIUM" then 10
      else if d == "HARD" then 15
      else 0
  }

  /** The points saved: a positive claim becomes the base of a known difficulty; anything else stays. */
  function SavedPoints(score: Score): (r: int)
    ensures score.points <= 0 || ExpectedBasePoints(score.difficulty) == 0 ==> r == score.points
    ensures score.points > 0 && ExpectedBasePoints(score.difficulty) > 0 ==> r == ExpectedBasePoints(score.difficulty)
    ensures score.points > 0 ==> r > 0
  {
    var expected := ExpectedBasePoints(score.difficulty);
    if score.points > 0 && expected > 0 then expected else score.points
  }

  /** The player's running total raised by the points (addToTotalScore). */
  function AddedToTotal(g: Game, k: nat, points: int): (r: Game)
    requires k < |g.players|
  {
    g.(players := g.players[k := g.players[k].(totalScore := g.players[k].totalScore + points)])
  }

  /**
   * saveScore: the checks; then the name is filled in, the points normalised and added to the
   * player's total; the challenge lock is released, the turn advanced, and skips considered.
   */
  function ScoreSaved(g: Game, score: Score): (r: (Game, Result<Score, ScoreError>))
    ensures r.1.Err? ==> r.0 == g && ScoreCheck(g, score).Err? && r.1.error == ScoreCheck(g, score).error
  {
    match ScoreCheck(g, score)
    case Err(e) => (g, Err(e))
    case Ok(k) =>
      var saved := score.(playerName := Some(g.players[k].name), points := SavedPoints(score));
      var g1 := AddedToTotal(g, k, saved.points);
      var g2 := g1.(session := g1.session.(turnStatus := AwaitingD6Roll, activeChallengeId := None));
      (ConsiderSkips(Advanced(g2)), Ok(saved))
  }

  method SaveScore(s: Session, score: Score) returns (result: Result<Score, ScoreError>)
    modifies s
    ensures (s.Snap(), result) == ScoreSaved(old(s.Snap()), score)
  {
    var checked := ScoreCheck(s.Snap(), score);
    if checked.Err? {
      return Err(checked.error);
    }
    ghost var g0 := s.Snap();
    var k := checked.value;
    var saved := score.(playerName := Some(s.players[k].name));
    var expected := ExpectedBasePoints(score.difficulty);
    if score.points > 0 && expected > 0 {
      saved := saved.(points := expected);
    }
    Credit(s, k, saved.points);
    ghost var g2 := s.Snap();
    ScoreSavedSteps(g0, score, k, saved, g2);
    AdvanceTurn(s);
    AdvanceTurnConsideringSkips(s);
    return Ok(saved);
  }

  /** The points added to player k's total, and the challenge lock released with the die awaited. */
  method Credit(s: Session, k: nat, points: int)
    requires k < |s.players|
    modifies s
    ensures s.Snap() == AddedToTotal(old(s.Snap()), k, points)
      .(session := old(s.Snap()).session.(turnStatus := AwaitingD6Roll, activeChallengeId := None))
  {
    s.SetPlayer(k, s.players[k].(totalScore := s.players[k].totalScore + points));
    s.SetTurnStatus(AwaitingD6Roll);
    s.SetActiveChallengeId(None);
  }

  lemma ScoreSavedSteps(g0: Game, score: Score, k: nat, saved: Score, g2: Game)
    requires ScoreCheck(g0, score) == Ok(k)
    requires saved == score.(playerName := Some(g0.players[k].name), points := SavedPoints(score))
    requires g2 == AddedToTotal(g0, k, saved.points).(session := g0.session.(turnStatus := AwaitingD6Roll, activeChallengeId := None))
    ensures ScoreSaved(g0, score) == (ConsiderSkips(Advanced(g2)), Ok(saved))
  {
  }

  // ---------------------------------------------------------------------------------------
  // Properties
  // ---------------------------------------------------------------------------------------

  /** The upper-case letters the three difficulty names start and end with. */
  lemma UpperLetterNotTrimmable(c: char)
    requires ToUpperChar(c) in {'E', 'M', 'H', 'Y', 'D', 'M'}
    ensures !IsTrimmable(c)
  {
  }

  /**
   * The difficulty is read case-insensitively and with surrounding white space ignored: any
   * spelling of EASY, MEDIUM or HARD, padded on either side, gives that difficulty's base.
   */
  lemma {:induction false} PaddedDifficultyBase(pre: string, d: string, post: string)
    requires forall i :: 0 <= i < |pre| ==> IsTrimmable(pre[i])
    requires forall i :: 0 <= i < |post| ==> IsTrimmable(post[i])
    requires ToUpper(d) == "EASY" || ToUpper(d) == "MEDIUM" || ToUpper(d) == "HARD"
    ensures ExpectedBasePoints(Some(pre + d + post)) ==
      if ToUpper(d) == "EASY" then 5 else if ToUpper(d) == "MEDIUM" then 10 else 15
  {
    var u := ToUpper(d);
    assert u[0] == ToUpperChar(d[0]) && u[|u| - 1] == ToUpperChar(d[|d| - 1]);
    UpperLetterNotTrimmable(d[0]);
    UpperLetterNotTrimmable(d[|d| - 1]);
    TrimIgnoresPadding(pre, d, post);
  }

  /** Same totals position by position. */
  ghost predicate SameTotals(ps: seq<Player>, qs: seq<Player>)
  {
    |ps| == |qs| && forall i :: 0 <= i < |ps| ==> ps[i].totalScore == qs[i].totalScore && ps[i].id == qs[i].id
  }

  lemma {:induction false} SkipLoopKeepsTotals(g: Game, n: nat, safety: nat)
    ensures SameTotals(SkipLoop(g, n, safety).0.players, g.players)
    decreases safety
  {
    if safety > 0 {
      var (g1, skipped) := SkipRound(g, n);
      SkipRoundKeepsTotals(g, n);
      if skipped {
        SkipLoopKeepsTotals(g1, n, safety - 1);
        SameTotalsTransitive(SkipLoop(g1, n, safety - 1).0.players, g1.players, g.players);
      }
    }
  }

  /** One round of the skip loop touches no total and no id. */
  lemma SkipRoundKeepsTotals(g: Game, n: nat)
    ensures SameTotals(SkipRound(g, n).0.players, g.players)
  {
  }

  lemma SameTotalsTransitive(a: seq<Player>, b: seq<Player>, c: seq<Player>)
    requires SameTotals(a, b) && SameTotals(b, c)
    ensures SameTotals(a, c)
  {
  }

  /** Turn advancement renumbers, skips and announces, but never touches a total or an id. */
  lemma AdvancingKeepsTotals(g: Game)
    ensures SameTotals(ConsiderSkips(g).players, g.players)
    ensures SameTotals(Advanced(g).players, g.players)
  {
    if InPlay(g.session) {
      ConsiderSkipsKeepsTotals(g);
      var g1 := NormalizedOrders(g);
      var n := |g1.players|;
      if n > 0 {
        var g2 := g1.(session := ResetTurn(g1.session, Successor(Clamp(g1.session.currentTurnOrder, n), n)));
        ConsiderSkipsKeepsTotals(g2);
        NormalizedFrame(ConsiderSkips(g2));
      }
    }
  }

  lemma ConsiderSkipsKeepsTotals(g: Game)
    ensures SameTotals(ConsiderSkips(g).players, g.players)
  {
    if InPlay(g.session) {
      var g1 := NormalizedOrders(g);
      var n := |g1.players|;
      if n > 0 {
        SkipLoopKeepsTotals(g1, n, n);
        NormalizedFrame(SkipLoop(g1, n, n).0);
      }
    }
  }

  /**
   * A saved score raises the submitting player's total by exactly the saved points and leaves
   * every other player's total as it was.
   */
  lemma SavedScoreAddsToTotal(g: Game, score: Score)
    requires ScoreSaved(g, score).1.Ok?
    ensures var (r, saved) := ScoreSaved(g, score);
      var k := FindPlayer(g.players, score.playerId.value).value;
      |r.players| == |g.players| &&
      r.players[k].totalScore == g.players[k].totalScore + saved.value.points &&
      forall i :: 0 <= i < |g.players| && i != k ==> r.players[i].totalScore == g.players[i].totalScore
  {
    var k := ScoreCheck(g, score).value;
    var saved := score.(playerName := Some(g.players[k].name), points := SavedPoints(score));
    var g1 := AddedToTotal(g, k, saved.points);
    var g2 := g1.(session := g1.session.(turnStatus := AwaitingD6Roll, activeChallengeId := None));
    AdvancingKeepsTotals(g2);
    AdvancingKeepsTotals(Advanced(g2));
  }

  lemma {:induction false} SkipLoopKeepsUnlocked(g: Game, n: nat, safety: nat)
    requires g.session.turnStatus == AwaitingD6Roll && g.session.activeChallengeId.None?
    ensures SkipLoop(g, n, safety).0.session.turnStatus == AwaitingD6Roll
    ensures SkipLoop(g, n, safety).0.session.activeChallengeId.None?
    decreases safety
  {
    if safety > 0 {
      SkipLoopKeepsUnlocked(SkipRound(g, n).0, n, safety - 1);
    }
  }

  /** Advancing a turn that awaits the die with no challenge keeps it so. */
  lemma AdvancingKeepsUnlocked(g: Game)
    requires g.session.turnStatus == AwaitingD6Roll && g.session.activeChallengeId.None?
    ensures ConsiderSkips(g).session.turnStatus == AwaitingD6Roll && ConsiderSkips(g).session.activeChallengeId.None?
    ensures Advanced(g).session.turnStatus == AwaitingD6Roll && Advanced(g).session.activeChallengeId.None?
  {
    ConsiderSkipsKeepsUnlocked(g);
    AdvancedKeepsUnlocked(g);
  }

  lemma AdvancedKeepsUnlocked(g: Game)
    requires g.session.turnStatus == AwaitingD6Roll && g.session.activeChallengeId.None?
    ensures Advanced(g).session.turnStatus == AwaitingD6Roll && Advanced(g).session.activeChallengeId.None?
  {
    if InPlay(g.session) {
      var g1 := NormalizedOrders(g);
      var n := |g1.players|;
      if n > 0 {
        var g2 := g1.(session := ResetTurn(g1.session, Successor(Clamp(g1.session.currentTurnOrder, n), n)));
        ConsiderSkipsKeepsUnlocked(g2);
        var g3 := ConsiderSkips(g2);
        NormalizedFrame(g3);
        assert Advanced(g) == Announced(g3);
      }
    }
  }

  lemma ConsiderSkipsKeepsUnlocked(g: Game)
    requires g.session.turnStatus == AwaitingD6Roll && g.session.activeChallengeId.None?
    ensures ConsiderSkips(g).session.turnStatus == AwaitingD6Roll && ConsiderSkips(g).session.activeChallengeId.None?
  {
    if InPlay(g.session) {
      var g1 := NormalizedOrders(g);
      var n := |g1.players|;
      if n > 0 {
        SkipLoopKeepsUnlocked(g1, n, n);
        var g2 := SkipLoop(g1, n, n).0;
        NormalizedFrame(g2);
      }
    }
  }

  /**
   * After a saved score the challenge lock is released: the die is awaited and no challenge
   * instance is active, so the same submission cannot be saved twice.
   */
  lemma SavedScoreUnlocks(g: Game, score: Score)
    requires ScoreSaved(g, score).1.Ok?
    ensures ScoreSaved(g, score).0.session.turnStatus == AwaitingD6Roll
    ensures ScoreSaved(g, score).0.session.activeChallengeId.None?
    ensures ScoreSaved(ScoreSaved(g, score).0, score).1.Err?
  {
    var k := ScoreCheck(g, score).value;
    var saved := score.(playerName := Some(g.players[k].name), points := SavedPoints(score));
    var g1 := AddedToTotal(g, k, saved.points);
    var g2 := g1.(session := g1.session.(turnStatus := AwaitingD6Roll, activeChallengeId := None));
    AdvancingKeepsUnlocked(g2);
    AdvancingKeepsUnlocked(Advanced(g2));
  }
}
