/**
 * What advanceTurnConsideringSkips does, stated without its loop. When the turn orders are
 * 1..n, the skip loop walks the cycle 1, 2, ..., n, 1, ... from the current order and skips the
 * run of consecutive turn holders that still have skips left; it stops at the first holder who
 * has none. Everything the lemmas here say follows from one closed form of the loop.
 */
module TurnRotation {
  import opened Wrappers
  import opened Ranking
  import opened GameModel
  import opened GameSessionService

  /** The order d steps after c in the cycle 1..n (for d <= n). */
  function Cyc(c: int, d: int, n: nat): int
  {
    if c + d <= n then c + d else c + d - n
  }

  /** How many steps after c the order t comes in the cycle 1..n. */
  function Dist(c: int, t: int, n: nat): int
  {
    if t >= c then t - c else t - c + n
  }

  lemma CycDist(c: int, t: int, n: nat)
    requires 1 <= c <= n && 1 <= t <= n
    ensures 0 <= Dist(c, t, n) < n && Cyc(c, Dist(c, t, n), n) == t
  {
  }

  lemma SuccessorStep(c: int, t: int, n: nat)
    requires 1 <= c <= n && 1 <= t <= n
    ensures Successor(c, n) == Cyc(c, 1, n)
    ensures t != c ==> Dist(c, t, n) == Dist(Successor(c, n), t, n) + 1
    ensures Dist(Successor(c, n), c, n) == n - 1
  {
  }

  lemma CycAfterSuccessor(c: int, d: nat, n: nat)
    requires 1 <= c <= n && d + 1 <= n
    ensures Cyc(Successor(c, n), d, n) == Cyc(c, d + 1, n)
  {
  }

  /** With orders 1..n every order is held. */
  lemma PermutationCovers(ps: seq<Player>, o: int)
    requires OrdersArePermutation(ps) && 1 <= o <= |ps|
    ensures FirstWithOrder(ps, o).Some?
  {
    PermutationSortedKeys(ps);
    var at := SortedPositions(TurnOrderLt(ps), |ps|)[o - 1];
    assert ps[at].turnOrder == o;
  }

  /** OrdersArePermutation restated over OrderAt terms; the lemmas below name OrderAt where they use it. */
  ghost predicate Rotation(ps: seq<Player>)
  {
    (forall i :: 0 <= i < |ps| ==> 1 <= OrderAt(ps, i) <= |ps|) &&
    (forall i, j :: 0 <= i < |ps| && 0 <= j < |ps| && i != j ==> OrderAt(ps, i) != OrderAt(ps, j))
  }

  lemma PermutationRotation(ps: seq<Player>)
    requires OrdersArePermutation(ps)
    ensures Rotation(ps)
  {
    forall i | 0 <= i < |ps| ensures OrderAt(ps, i) == ps[i].turnOrder {
    }
  }

  lemma RotationCovers(ps: seq<Player>, o: int)
    requires Rotation(ps) && 1 <= o <= |ps|
    ensures FirstWithOrder(ps, o).Some?
  {
    assert forall i :: 0 <= i < |ps| ==> OrderAt(ps, i) == ps[i].turnOrder;
    PermutationCovers(ps, o);
  }

  lemma RotationSameOrders(ps: seq<Player>, qs: seq<Player>)
    requires Rotation(ps) && SameOrders(ps, qs)
    ensures Rotation(qs)
  {
    forall i | 0 <= i < |ps| ensures OrderAt(qs, i) == OrderAt(ps, i) {
    }
  }

  /** The holder of order o has skips left. */
  predicate HasSkips(ps: seq<Player>, o: int)
  {
    FirstWithOrder(ps, o).Some? && ps[FirstWithOrder(ps, o).value].skipTurns > 0
  }

  /** The number of consecutive turn holders, from order o on and at most s of them, with skips left. */
  function Run(ps: seq<Player>, n: nat, o: int, s: nat): (r: nat)
    ensures r <= s
    decreases s
  {
    if s == 0 || !HasSkips(ps, o) then 0 else 1 + Run(ps, n, Successor(o, n), s - 1)
  }

  /**
   * The loop in one step: the first Run holders from the clamped current order are skipped, one
   * TURN_SKIPPED event each, and the turn rests with the order after them; when nobody is
   * skipped, only a phase the holder may not keep is reset.
   */
  function SkipClosed(g: Game, n: nat, s: nat): (Game, bool)
  {
    var cur := Clamp(g.session.currentTurnOrder, n);
    var k := Run(g.players, n, cur, s);
    if k > 0 then (SkipTo(g, cur, k, n), true)
    else if s > 0 && !KeepsPhase(g.session.turnStatus) then
      (g.(session := g.session.(turnStatus := AwaitingD6Roll)), false)
    else (g, false)
  }

  /** The first k holders from cur skipped at once: k events, the turn k orders on. */
  function SkipTo(g: Game, cur: int, k: nat, n: nat): Game
  {
    var seq0 := g.session.lastEventSeq;
    Game(ResetTurn(g.session.(lastEventSeq := seq0 + k, lastEventType := Some(TurnSkipped)), Cyc(cur, k, n)),
         SkipFirst(g.players, cur, k, n),
         g.events + SkipEvents(seq0, k))
  }

  /** Every player whose order lies fewer than k steps after cur skips a turn. */
  function SkipFirst(ps: seq<Player>, cur: int, k: int, n: nat): (r: seq<Player>)
    ensures |r| == |ps|
  {
    seq(|ps|, i requires 0 <= i < |ps| => if Dist(cur, ps[i].turnOrder, n) < k then Skipped(ps[i]) else ps[i])
  }

  /** k TURN_SKIPPED events numbered on from seq0. */
  function SkipEvents(seq0: int, k: nat): (r: seq<GameEvent>)
    ensures |r| == k
  {
    seq(k, j => GameEvent(seq0 + 1 + j, TurnSkipped))
  }

  /** Whether the holder of o has skips left depends only on players holding o. */
  lemma HasSkipsFrame(ps: seq<Player>, qs: seq<Player>, o: int, x: int)
    requires SameOrders(ps, qs) && o != x
    requires forall i :: 0 <= i < |ps| && ps[i].turnOrder != x ==> ps[i].skipTurns == qs[i].skipTurns
    ensures HasSkips(ps, o) == HasSkips(qs, o)
  {
    SameOrdersSameFirst(ps, qs, o);
  }

  /** Run does not look at a player whose order is s or more steps ahead. */
  lemma {:induction false} RunFrame(ps: seq<Player>, qs: seq<Player>, n: nat, o: int, s: nat, x: int)
    requires n == |ps| && SameOrders(ps, qs)
    requires forall i :: 0 <= i < |ps| && ps[i].turnOrder != x ==> ps[i].skipTurns == qs[i].skipTurns
    requires 1 <= o <= n && 1 <= x <= n && s <= Dist(o, x, n)
    ensures Run(ps, n, o, s) == Run(qs, n, o, s)
    decreases s
  {
    if s > 0 {
      HasSkipsFrame(ps, qs, o, x);
      var next := Successor(o, n);
      assert Dist(o, x, n) == Dist(next, x, n) + 1 by {
        SuccessorStep(o, x, n);
      }
      RunFrame(ps, qs, n, next, s - 1, x);
    }
  }

  lemma SkipFirstStep(ps: seq<Player>, k0: nat, cur: int, k: nat, n: nat)
    requires n == |ps| && Rotation(ps) && 1 <= cur <= n && 1 <= k <= n
    requires k0 < n && ps[k0].turnOrder == cur
    ensures SkipFirst(ps[k0 := Skipped(ps[k0])], Successor(cur, n), k - 1, n) == SkipFirst(ps, cur, k, n)
  {
    var qs := ps[k0 := Skipped(ps[k0])];
    forall i | 0 <= i < n
      ensures SkipFirst(qs, Successor(cur, n), k - 1, n)[i] == SkipFirst(ps, cur, k, n)[i]
    {
      assert 1 <= OrderAt(ps, i) <= n;
      if i != k0 {
        assert OrderAt(ps, i) != OrderAt(ps, k0);
      }
      SuccessorStep(cur, ps[i].turnOrder, n);
    }
  }

  lemma SkipEventsStep(events: seq<GameEvent>, seq0: int, k: nat)
    requires k >= 1
    ensures (events + [GameEvent(seq0 + 1, TurnSkipped)]) + SkipEvents(seq0 + 1, k - 1) == events + SkipEvents(seq0, k)
  {
    var a := (events + [GameEvent(seq0 + 1, TurnSkipped)]) + SkipEvents(seq0 + 1, k - 1);
    var b := events + SkipEvents(seq0, k);
    assert |a| == |b|;
    forall j | 0 <= j < |a| ensures a[j] == b[j] {
      if j > |events| {
        assert a[j] == SkipEvents(seq0 + 1, k - 1)[j - |events| - 1];
      }
    }
  }

  lemma SkipFirstNone(ps: seq<Player>, cur: int, n: nat)
    requires n == |ps| && Rotation(ps) && 1 <= cur <= n
    ensures SkipFirst(ps, cur, 0, n) == ps
  {
    forall i | 0 <= i < n ensures SkipFirst(ps, cur, 0, n)[i] == ps[i] {
      assert 1 <= OrderAt(ps, i) <= n;
      CycDist(cur, ps[i].turnOrder, n);
    }
  }

  /** Skipping the holder of cur shortens the run from the order after it by one. */
  lemma SkipStepRun(ps: seq<Player>, n: nat, cur: int, s: nat, k0: nat)
    requires n == |ps| && 1 <= s <= n && 1 <= cur <= n
    requires FirstWithOrder(ps, cur) == Some(k0) && ps[k0].skipTurns > 0
    ensures Run(ps[k0 := Skipped(ps[k0])], n, Successor(cur, n), s - 1) == Run(ps, n, cur, s) - 1
  {
    RunSkipsFirst(ps, n, cur, s, k0);
    RunAfterSkip(ps, n, cur, s, k0);
  }

  /** The run from the order after cur does not see the skip just taken from the holder of cur. */
  lemma RunAfterSkip(ps: seq<Player>, n: nat, cur: int, s: nat, k0: nat)
    requires n == |ps| && 1 <= s <= n && 1 <= cur <= n && k0 < n && ps[k0].turnOrder == cur
    ensures Run(ps[k0 := Skipped(ps[k0])], n, Successor(cur, n), s - 1) == Run(ps, n, Successor(cur, n), s - 1)
  {
    SkipOneKeepsOrders(ps, k0);
    SuccessorStep(cur, cur, n);
    RunFrame(ps, ps[k0 := Skipped(ps[k0])], n, Successor(cur, n), s - 1, cur);
  }

  /** Taking a skip from one player keeps the orders a rotation. */
  lemma SkipKeepsRotation(ps: seq<Player>, k0: nat)
    requires k0 < |ps| && Rotation(ps)
    ensures Rotation(ps[k0 := Skipped(ps[k0])])
  {
    SkipOneKeepsOrders(ps, k0);
    RotationSameOrders(ps, ps[k0 := Skipped(ps[k0])]);
  }

  lemma RunSkipsFirst(ps: seq<Player>, n: nat, cur: int, s: nat, k0: nat)
    requires s > 0 && FirstWithOrder(ps, cur) == Some(k0) && ps[k0].skipTurns > 0
    ensures Run(ps, n, cur, s) == 1 + Run(ps, n, Successor(cur, n), s - 1)
  {
  }

  lemma SkipOneKeepsOrders(ps: seq<Player>, k0: nat)
    requires k0 < |ps|
    ensures SameOrders(ps, ps[k0 := Skipped(ps[k0])])
    ensures forall i :: 0 <= i < |ps| && ps[i].turnOrder != ps[k0].turnOrder ==> ps[i].skipTurns == ps[k0 := Skipped(ps[k0])][i].skipTurns
  {
  }

  /**
   * The facts about the game after skipping the holder of cur that the closed form reads, with
   * the skipped players left abstract.
   */
  ghost predicate SkippedFrom(g: Game, g2: Game, cur: int, n: nat)
  {
    g2.session == ResetTurn(g.session.(lastEventSeq := g.session.lastEventSeq + 1, lastEventType := Some(TurnSkipped)), Successor(cur, n)) &&
    g2.events == g.events + [GameEvent(g.session.lastEventSeq + 1, TurnSkipped)]
  }

  /** The closed form after one skip when more than one holder is skipped. */
  lemma SkipStepMany(g: Game, g2: Game, n: nat, s: nat, cur: int, k: nat)
    requires 1 <= cur <= n && cur == Clamp(g.session.currentTurnOrder, n) && 1 <= s
    requires 2 <= k <= n && k == Run(g.players, n, cur, s) && SkippedFrom(g, g2, cur, n)
    requires Run(g2.players, n, Successor(cur, n), s - 1) == k - 1
    requires SkipFirst(g2.players, Successor(cur, n), k - 1, n) == SkipFirst(g.players, cur, k, n)
    ensures SkipClosed(g2, n, s - 1).0 == SkipClosed(g, n, s).0
  {
    ClosedSkipping(g, n, s, cur, k);
    ClosedSkipping(g2, n, s - 1, Successor(cur, n), k - 1);
    SkipToStep(g, g2, cur, k, n);
  }

  /** The closed form after one skip when only the holder of the current order is skipped. */
  lemma SkipStepOne(g: Game, g2: Game, n: nat, s: nat, cur: int)
    requires 1 <= cur <= n && cur == Clamp(g.session.currentTurnOrder, n) && 1 <= s
    requires 1 == Run(g.players, n, cur, s) && SkippedFrom(g, g2, cur, n)
    requires Run(g2.players, n, Successor(cur, n), s - 1) == 0
    requires SkipFirst(g.players, cur, 1, n) == g2.players
    ensures SkipClosed(g2, n, s - 1).0 == SkipClosed(g, n, s).0
  {
    ClosedSkipping(g, n, s, cur, 1);
    ClosedStopped(g2, n, s - 1);
    SkipToOne(g, g2, cur, n);
  }

  lemma ClosedSkipping(g: Game, n: nat, s: nat, cur: int, k: nat)
    requires cur == Clamp(g.session.currentTurnOrder, n) && k == Run(g.players, n, cur, s) && 1 <= k
    ensures SkipClosed(g, n, s) == (SkipTo(g, cur, k, n), true)
  {
  }

  /** The parts of a skipped game the closed form reads. */
  lemma ResetSkippedParts(g: Game, k0: nat, cur: int, n: nat)
    requires k0 < |g.players|
    ensures ResetSkipped(g, k0, cur, n).players == g.players[k0 := Skipped(g.players[k0])]
    ensures SkippedFrom(g, ResetSkipped(g, k0, cur, n), cur, n)
  {
  }

  lemma ClosedStopped(g: Game, n: nat, s: nat)
    requires g.session.turnStatus == AwaitingD6Roll && Run(g.players, n, Clamp(g.session.currentTurnOrder, n), s) == 0
    ensures SkipClosed(g, n, s).0 == g
  {
  }

  /** Skipping the holder of cur and then k-1 more is skipping k from cur. */
  lemma SkipToStep(g: Game, g2: Game, cur: int, k: nat, n: nat)
    requires 1 <= cur <= n && 2 <= k <= n && SkippedFrom(g, g2, cur, n)
    requires SkipFirst(g2.players, Successor(cur, n), k - 1, n) == SkipFirst(g.players, cur, k, n)
    ensures SkipTo(g2, Successor(cur, n), k - 1, n) == SkipTo(g, cur, k, n)
  {
    SkipEventsStep(g.events, g.session.lastEventSeq, k);
    SuccessorStep(cur, cur, n);
    CycAfterSuccessor(cur, k - 1, n);
  }

  /** Skipping the holder of cur alone is skipping one from cur. */
  lemma SkipToOne(g: Game, g2: Game, cur: int, n: nat)
    requires 1 <= cur <= n && SkippedFrom(g, g2, cur, n)
    requires SkipFirst(g.players, cur, 1, n) == g2.players
    ensures g2 == SkipTo(g, cur, 1, n)
  {
    SkipEventsStep(g.events, g.session.lastEventSeq, 1);
    SuccessorStep(cur, cur, n);
  }

  /** After skipping the holder of cur, the closed form of the remaining rounds is that of all of them. */
  lemma SkipStepClosed(g: Game, g2: Game, n: nat, s: nat, k0: nat)
    requires n == |g.players| && n > 0 && Rotation(g.players) && 1 <= s <= n
    requires SkipsHolder(g, n, k0)
    requires g2.players == g.players[k0 := Skipped(g.players[k0])]
    requires SkippedFrom(g, g2, Clamp(g.session.currentTurnOrder, n), n)
    ensures SkipClosed(g2, n, s - 1).0 == SkipClosed(g, n, s).0
  {
    var cur := Clamp(g.session.currentTurnOrder, n);
    var k := Run(g.players, n, cur, s);
    SkipStepPlayers(g.players, n, s, cur, k0);
    SkipStepFirst(g.players, n, cur, k, k0);
    if k > 1 {
      SkipStepMany(g, g2, n, s, cur, k);
    } else {
      SkipStepOne(g, g2, n, s, cur);
    }
  }

  /** What skipping the holder of cur does to the run from it. */
  lemma SkipStepPlayers(ps: seq<Player>, n: nat, s: nat, cur: int, k0: nat)
    requires n == |ps| && 1 <= s <= n && 1 <= cur <= n
    requires FirstWithOrder(ps, cur) == Some(k0) && ps[k0].skipTurns > 0
    ensures 1 <= Run(ps, n, cur, s)
    ensures Run(ps[k0 := Skipped(ps[k0])], n, Successor(cur, n), s - 1) == Run(ps, n, cur, s) - 1
  {
    SkipStepRun(ps, n, cur, s, k0);
  }

  /** What skipping the holder of cur does to the players the closed form skips. */
  lemma SkipStepFirst(ps: seq<Player>, n: nat, cur: int, k: nat, k0: nat)
    requires n == |ps| && Rotation(ps) && 1 <= cur <= n && 1 <= k <= n
    requires k0 < n && ps[k0].turnOrder == cur
    ensures SkipFirst(ps[k0 := Skipped(ps[k0])], Successor(cur, n), k - 1, n) == SkipFirst(ps, cur, k, n)
    ensures SkipFirst(ps[k0 := Skipped(ps[k0])], Successor(cur, n), 0, n) == ps[k0 := Skipped(ps[k0])]
  {
    SkipKeepsRotation(ps, k0);
    SkipFirstStep(ps, k0, cur, k, n);
    SkipFirstNone(ps[k0 := Skipped(ps[k0])], Successor(cur, n), n);
  }

  /** A skipping round reports that it skipped, as the closed form does. */
  lemma SkipClosedSkips(g: Game, n: nat, s: nat, k0: nat)
    requires n > 0 && 1 <= s && SkipsHolder(g, n, k0)
    ensures SkipClosed(g, n, s).1
  {
    RunSkipsFirst(g.players, n, Clamp(g.session.currentTurnOrder, n), s, k0);
  }

  /** The skip loop equals its closed form whenever the orders are 1..n. */
  lemma SkipLoopClosedForm(g: Game, n: nat, s: nat)
    requires n == |g.players| && n > 0 && OrdersArePermutation(g.players) && s <= n
    ensures SkipLoop(g, n, s) == SkipClosed(g, n, s)
  {
    PermutationRotation(g.players);
    SkipLoopRotation(g, n, s);
  }

  lemma {:induction false} SkipLoopRotation(g: Game, n: nat, s: nat)
    requires n == |g.players| && n > 0 && Rotation(g.players) && s <= n
    ensures SkipLoop(g, n, s) == SkipClosed(g, n, s)
    decreases s
  {
    var cur := Clamp(g.session.currentTurnOrder, n);
    if s == 0 {
      SkipLoopNoRounds(g, n);
    } else {
      RotationCovers(g.players, cur);
      var k0 := FirstWithOrder(g.players, cur).value;
      if g.players[k0].skipTurns > 0 {
        var t := s - 1;
        forall h | Fits(h, n, t) ensures SkipLoop(h, n, t) == SkipClosed(h, n, t) {
          SkipLoopRotation(h, n, t);
        }
        SkipCase(g, n, s, t, k0);
      } else {
        SkipLoopStopping(g, n, s, k0);
      }
    }
  }

  /** The holder of the clamped current order sits at position k0 and has skips left. */
  ghost predicate SkipsHolder(g: Game, n: nat, k0: nat)
  {
    FirstWithOrder(g.players, Clamp(g.session.currentTurnOrder, n)) == Some(k0) && g.players[k0].skipTurns > 0
  }

  /** The shape of game the closed form is proved for. */
  ghost predicate Fits(g: Game, n: nat, s: nat)
  {
    n == |g.players| && n > 0 && Rotation(g.players) && s <= n
  }

  /** The skipping case of the induction, given the closed form for every game and one round fewer. */
  lemma SkipCase(g: Game, n: nat, s: nat, t: nat, k0: nat)
    requires n == |g.players| && n > 0 && Rotation(g.players) && 1 <= s <= n && t == s - 1
    requires SkipsHolder(g, n, k0)
    requires forall h :: Fits(h, n, t) ==> SkipLoop(h, n, t) == SkipClosed(h, n, t)
    ensures SkipLoop(g, n, s) == SkipClosed(g, n, s)
  {
    var g2 := ResetSkipped(g, k0, Clamp(g.session.currentTurnOrder, n), n);
    SkipStepFacts(g, n, s, k0);
    SkipFits(g, n, s, k0);
    assert SkipLoop(g2, n, t) == SkipClosed(g2, n, t);
    SkipLoopSkipping(g, n, s, k0);
    SameOutcome(SkipLoop(g, n, s), SkipLoop(g2, n, s - 1), SkipClosed(g2, n, s - 1), SkipClosed(g, n, s));
  }

  /** A skip keeps the players a rotation, so the remaining rounds fit the induction hypothesis. */
  lemma SkipFits(g: Game, n: nat, s: nat, k0: nat)
    requires n == |g.players| && n > 0 && Rotation(g.players) && 1 <= s <= n
    requires SkipsHolder(g, n, k0)
    ensures Fits(ResetSkipped(g, k0, Clamp(g.session.currentTurnOrder, n), n), n, s - 1)
  {
    SkipKeepsRotation(g.players, k0);
  }

  /** One skip, seen through the closed form: it agrees with the closed form of all the rounds, and it reports a skip. */
  lemma SkipStepFacts(g: Game, n: nat, s: nat, k0: nat)
    requires n == |g.players| && n > 0 && Rotation(g.players) && 1 <= s <= n
    requires SkipsHolder(g, n, k0)
    ensures SkipClosed(ResetSkipped(g, k0, Clamp(g.session.currentTurnOrder, n), n), n, s - 1).0 == SkipClosed(g, n, s).0
    ensures SkipClosed(g, n, s).1
  {
    ResetSkippedParts(g, k0, Clamp(g.session.currentTurnOrder, n), n);
    SkipStepClosed(g, ResetSkipped(g, k0, Clamp(g.session.currentTurnOrder, n), n), n, s, k0);
    SkipClosedSkips(g, n, s, k0);
  }

  lemma SameOutcome(a: (Game, bool), b: (Game, bool), c: (Game, bool), d: (Game, bool))
    requires a == (b.0, true) && b == c && c.0 == d.0 && d.1
    ensures a == d
  {
  }

  lemma SkipLoopNoRounds(g: Game, n: nat)
    requires n == |g.players| && n > 0 && Rotation(g.players)
    ensures SkipLoop(g, n, 0) == SkipClosed(g, n, 0)
  {
  }

  /** A round that skips leaves the rest to the remaining rounds. */
  lemma SkipLoopSkipping(g: Game, n: nat, s: nat, k0: nat)
    requires s > 0 && n > 0
    requires FirstWithOrder(g.players, Clamp(g.session.currentTurnOrder, n)) == Some(k0)
    requires g.players[k0].skipTurns > 0
    ensures SkipLoop(g, n, s) == (SkipLoop(ResetSkipped(g, k0, Clamp(g.session.currentTurnOrder, n), n), n, s - 1).0, true)
  {
    SkipLoopUnfold(g, n, s);
  }

  /** A round that finds the holder without skips ends the loop, as the closed form says. */
  lemma SkipLoopStopping(g: Game, n: nat, s: nat, k0: nat)
    requires n == |g.players| && n > 0 && Rotation(g.players) && 0 < s
    requires FirstWithOrder(g.players, Clamp(g.session.currentTurnOrder, n)) == Some(k0)
    requires g.players[k0].skipTurns <= 0
    ensures SkipLoop(g, n, s) == SkipClosed(g, n, s)
  {
    SkipLoopUnfold(g, n, s);
    assert Run(g.players, n, Clamp(g.session.currentTurnOrder, n), s) == 0;
  }
}
