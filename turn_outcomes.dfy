/**
 * What the skip loop and advanceTurn promise, read off the closed form of the loop: every player
 * loses at most one skip, players are skipped in turn order from the current one, the turn comes
 * to rest with a player who has no skips left whenever there is one, and one TURN_SKIPPED event is
 * published per skip.
 */
module TurnOutcomes {
  import opened Wrappers
  import opened GameModel
  import opened GameSessionService
  import opened TurnRotation

  lemma CycRange(c: int, d: nat, n: nat)
    requires 1 <= c <= n && d <= n
    ensures 1 <= Cyc(c, d, n) <= n
  {
  }

  lemma DistCyc(c: int, d: nat, n: nat)
    requires 1 <= c <= n && d < n
    ensures Dist(c, Cyc(c, d, n), n) == d
  {
  }

  /** A run shorter than its bound ends at an order whose holder has no skips left. */
  lemma {:induction false} RunStops(ps: seq<Player>, n: nat, o: int, s: nat)
    requires 1 <= o <= n && s <= n
    ensures Run(ps, n, o, s) < s ==> !HasSkips(ps, Cyc(o, Run(ps, n, o, s), n))
    decreases s
  {
    if s > 0 && HasSkips(ps, o) {
      var next := Successor(o, n);
      RunStops(ps, n, next, s - 1);
      CycAfterSuccessor(o, Run(ps, n, next, s - 1), n);
    }
  }

  /** Every order the run passes over has a holder with skips left. */
  lemma {:induction false} RunHasSkips(ps: seq<Player>, n: nat, o: int, s: nat, d: nat)
    requires 1 <= o <= n && s <= n && d < Run(ps, n, o, s)
    ensures HasSkips(ps, Cyc(o, d, n))
    decreases s
  {
    if d > 0 {
      var next := Successor(o, n);
      RunHasSkips(ps, n, next, s - 1, d - 1);
      CycAfterSuccessor(o, d - 1, n);
    }
  }

  /** When every order has a holder with skips left, the run is as long as its bound. */
  lemma {:induction false} RunWhenAllSkip(ps: seq<Player>, n: nat, o: int, s: nat)
    requires 1 <= o <= n && forall t :: 1 <= t <= n ==> HasSkips(ps, t)
    ensures Run(ps, n, o, s) == s
    decreases s
  {
    if s > 0 {
      RunWhenAllSkip(ps, n, Successor(o, n), s - 1);
    }
  }

  /** Under a rotation, the holder of the order d steps after cur, for d the distance to player i, is i. */
  lemma HolderAtDist(ps: seq<Player>, n: nat, cur: int, i: nat)
    requires n == |ps| && Rotation(ps) && 1 <= cur <= n && i < n
    ensures 0 <= Dist(cur, ps[i].turnOrder, n) < n
    ensures FirstWithOrder(ps, Cyc(cur, Dist(cur, ps[i].turnOrder, n), n)) == Some(i)
  {
    assert 1 <= OrderAt(ps, i) <= n;
    CycDist(cur, ps[i].turnOrder, n);
    var r := FirstWithOrder(ps, ps[i].turnOrder);
    assert r.Some?;
    assert OrderAt(ps, r.value) == OrderAt(ps, i);
  }

  /** A run over all n orders means every player has skips left. */
  lemma FullRunAllSkip(ps: seq<Player>, n: nat, cur: int)
    requires n == |ps| && Rotation(ps) && 1 <= cur <= n && Run(ps, n, cur, n) == n
    ensures forall i :: 0 <= i < n ==> ps[i].skipTurns > 0
  {
    forall i | 0 <= i < n ensures ps[i].skipTurns > 0 {
      HolderAtDist(ps, n, cur, i);
      RunHasSkips(ps, n, cur, n, Dist(cur, ps[i].turnOrder, n));
    }
  }

  lemma SkipFirstSameOrders(ps: seq<Player>, cur: int, k: int, n: nat)
    ensures SameOrders(SkipFirst(ps, cur, k, n), ps)
  {
  }

  /** The loop's result when the orders are 1..n, in the names the lemmas below use. */
  lemma LoopIsClosed(g: Game, n: nat)
    requires n == |g.players| && n > 0 && OrdersArePermutation(g.players)
    ensures Rotation(g.players)
    ensures SkipLoop(g, n, n) == SkipClosed(g, n, n)
  {
    PermutationRotation(g.players);
    SkipLoopClosedForm(g, n, n);
  }

  /** Each player is skipped at most once: it comes out unchanged or with exactly one skip consumed. */
  lemma SkipLoopSkipsEachAtMostOnce(g: Game, n: nat)
    requires n == |g.players| && n > 0 && OrdersArePermutation(g.players)
    ensures |SkipLoop(g, n, n).0.players| == n
    ensures SameOrders(SkipLoop(g, n, n).0.players, g.players)
    ensures forall i :: 0 <= i < n ==>
      SkipLoop(g, n, n).0.players[i] == g.players[i] || SkipLoop(g, n, n).0.players[i] == Skipped(g.players[i])
  {
    LoopIsClosed(g, n);
    var cur := Clamp(g.session.currentTurnOrder, n);
    SkipFirstSameOrders(g.players, cur, Run(g.players, n, cur, n), n);
  }

  /**
   * The skipped players are exactly the run of holders with skips left from the current order on:
   * player i is skipped iff its order lies fewer than k steps after it.
   */
  lemma SkipLoopSkipsTheRun(g: Game, n: nat, i: nat)
    requires n == |g.players| && n > 0 && OrdersArePermutation(g.players) && i < n
    ensures |SkipLoop(g, n, n).0.players| == n
    ensures var cur := Clamp(g.session.currentTurnOrder, n);
      SkipLoop(g, n, n).0.players[i]
      == if Dist(cur, g.players[i].turnOrder, n) < Run(g.players, n, cur, n) then Skipped(g.players[i]) else g.players[i]
  {
    LoopIsClosed(g, n);
    var cur := Clamp(g.session.currentTurnOrder, n);
    if Run(g.players, n, cur, n) == 0 {
      HolderAtDist(g.players, n, cur, i);
    }
  }

  /** Only a player with skips left is skipped: one without comes out unchanged. */
  lemma NoSkipsNotSkipped(g: Game, n: nat, i: nat)
    requires n == |g.players| && n > 0 && OrdersArePermutation(g.players) && i < n
    ensures |SkipLoop(g, n, n).0.players| == n
    ensures g.players[i].skipTurns <= 0 ==> SkipLoop(g, n, n).0.players[i] == g.players[i]
  {
    var cur := Clamp(g.session.currentTurnOrder, n);
    SkipLoopSkipsTheRun(g, n, i);
    LoopIsClosed(g, n);
    HolderAtDist(g.players, n, cur, i);
    var d := Dist(cur, g.players[i].turnOrder, n);
    if d < Run(g.players, n, cur, n) {
      RunHasSkips(g.players, n, cur, n, d);
    }
  }

  /** One TURN_SKIPPED event per skipped turn, numbered on from lastEventSeq; the log stays consecutive. */
  lemma SkipLoopEvents(g: Game, n: nat)
    requires n == |g.players| && n > 0 && OrdersArePermutation(g.players)
    ensures var k := Run(g.players, n, Clamp(g.session.currentTurnOrder, n), n);
      SkipLoop(g, n, n).0.events == g.events + SkipEvents(g.session.lastEventSeq, k) &&
      SkipLoop(g, n, n).0.session.lastEventSeq == g.session.lastEventSeq + k &&
      (SkipLoop(g, n, n).1 <==> k > 0)
    ensures LogConsistent(g) ==> LogConsistent(SkipLoop(g, n, n).0)
  {
    LoopIsClosed(g, n);
    var k := Run(g.players, n, Clamp(g.session.currentTurnOrder, n), n);
    if k == 0 {
      assert g.events + SkipEvents(g.session.lastEventSeq, 0) == g.events;
    }
    var r := SkipLoop(g, n, n).0;
    if LogConsistent(g) {
      forall j | 0 <= j < |r.events|
        ensures r.events[j].seqNo == r.session.lastEventSeq - |r.events| + 1 + j
      {
        if j >= |g.events| {
          assert r.events[j] == SkipEvents(g.session.lastEventSeq, k)[j - |g.events|];
        }
      }
    }
  }

  /**
   * Whenever some player has no skips left, the loop stops at one: the holder of the order it
   * leaves current (read through the same clamp) has no skips left and was not skipped.
   */
  lemma SkipLoopStopsAtPlayable(g: Game, n: nat, p: nat)
    requires n == |g.players| && n > 0 && OrdersArePermutation(g.players)
    requires p < n && g.players[p].skipTurns <= 0
    ensures |SkipLoop(g, n, n).0.players| == n
    ensures var r := SkipLoop(g, n, n).0;
      FirstWithOrder(r.players, Clamp(r.session.currentTurnOrder, n)).Some? &&
      r.players[FirstWithOrder(r.players, Clamp(r.session.currentTurnOrder, n)).value].skipTurns <= 0 &&
      r.players[FirstWithOrder(r.players, Clamp(r.session.currentTurnOrder, n)).value]
        == g.players[FirstWithOrder(r.players, Clamp(r.session.currentTurnOrder, n)).value]
  {
    LoopIsClosed(g, n);
    var ps := g.players;
    var cur := Clamp(g.session.currentTurnOrder, n);
    var k := Run(ps, n, cur, n);
    if k == n {
      FullRunAllSkip(ps, n, cur);
      assert false;
    }
    RunStops(ps, n, cur, n);
    var t := Cyc(cur, k, n);
    CycRange(cur, k, n);
    RotationCovers(ps, t);
    var j := FirstWithOrder(ps, t).value;
    var r := SkipLoop(g, n, n).0;
    SkipLoopSkipsEachAtMostOnce(g, n);
    SameOrdersSameFirst(r.players, ps, t);
    DistCyc(cur, k, n);
    SkipLoopSkipsTheRun(g, n, j);
    assert Clamp(r.session.currentTurnOrder, n) == t;
  }

  /** When every player has skips left, each is skipped exactly once and the turn comes back round. */
  lemma SkipLoopAllSkipping(g: Game, n: nat)
    requires n == |g.players| && n > 0 && OrdersArePermutation(g.players)
    requires forall i :: 0 <= i < n ==> g.players[i].skipTurns > 0
    ensures |SkipLoop(g, n, n).0.players| == n
    ensures forall i :: 0 <= i < n ==> SkipLoop(g, n, n).0.players[i] == Skipped(g.players[i])
    ensures SkipLoop(g, n, n).0.session.currentTurnOrder == Clamp(g.session.currentTurnOrder, n)
    ensures |SkipLoop(g, n, n).0.events| == |g.events| + n
  {
    LoopIsClosed(g, n);
    var ps := g.players;
    var cur := Clamp(g.session.currentTurnOrder, n);
    forall t | 1 <= t <= n ensures HasSkips(ps, t) {
      RotationCovers(ps, t);
    }
    RunWhenAllSkip(ps, n, cur, n);
    forall i | 0 <= i < n ensures SkipLoop(g, n, n).0.players[i] == Skipped(ps[i]) {
      SkipLoopSkipsTheRun(g, n, i);
      HolderAtDist(ps, n, cur, i);
    }
  }

  /**
   * When the holder of the current order has no skips left, the loop changes nothing but a phase
   * that holder may not keep, which becomes AWAITING_D6_ROLL; no event is published.
   */
  lemma SkipLoopNoSkip(g: Game, n: nat, k0: nat)
    requires n == |g.players| && n > 0
    requires FirstWithOrder(g.players, Clamp(g.session.currentTurnOrder, n)) == Some(k0)
    requires g.players[k0].skipTurns <= 0
    ensures SkipLoop(g, n, n).0 == if KeepsPhase(g.session.turnStatus) then g else g.(session := g.session.(turnStatus := AwaitingD6Roll))
    ensures !SkipLoop(g, n, n).1
  {
    SkipLoopUnfold(g, n, n);
  }

  /** The turn actions leave a finished or unstarted session as it is. */
  lemma InactiveUnchanged(g: Game)
    requires !InPlay(g.session)
    ensures Advanced(g) == g && ConsiderSkips(g) == g && Announced(g) == g
  {
  }

  /** What normalisation keeps, without the order facts. */
  lemma NormalizedFrame(g: Game)
    ensures NormalizedOrders(g).session == g.session && NormalizedOrders(g).events == g.events
    ensures |NormalizedOrders(g).players| == |g.players| && OrdersArePermutation(NormalizedOrders(g).players)
  {
    NormalizedOrdersSpec(g);
  }

  /** Normalisation touches no skips: when nobody has skips left, nobody has after it either. */
  lemma NoSkipsNormalized(g: Game, o: int)
    requires forall i :: 0 <= i < |g.players| ==> g.players[i].skipTurns <= 0
    ensures !HasSkips(NormalizedOrders(g).players, o)
  {
    var ps := NormalizedOrders(g).players;
    if FirstWithOrder(ps, o).Some? {
      var k := FirstWithOrder(ps, o).value;
      assert ps[k] == g.players[k].(turnOrder := ps[k].turnOrder);
    }
  }

  lemma SameOrdersPermutation(ps: seq<Player>, qs: seq<Player>)
    requires SameOrders(ps, qs) && OrdersArePermutation(qs)
    ensures OrdersArePermutation(ps)
  {
  }

  /** With orders 1..n and a current order among them, announceCurrentTurn publishes one TURN_NEXT. */
  lemma AnnouncedInRange(g: Game)
    requires InPlay(g.session) && OrdersArePermutation(g.players)
    requires 1 <= g.session.currentTurnOrder <= |g.players|
    ensures Announced(g) == Published(g, TurnNext)
  {
    NormalizePermutationUnchanged(g);
    PermutationRotation(g.players);
    RotationCovers(g.players, g.session.currentTurnOrder);
  }

  /**
   * advanceTurnConsideringSkips on orders 1..n: the k holders with skips left from the current
   * order on are skipped and TURN_NEXT is announced; with none, only the phase reset applies.
   */
  lemma ConsiderSkipsClosedForm(g: Game)
    requires InPlay(g.session) && OrdersArePermutation(g.players) && |g.players| > 0
    ensures var n := |g.players|;
      var cur := Clamp(g.session.currentTurnOrder, n);
      var k := Run(g.players, n, cur, n);
      ConsiderSkips(g) ==
        if k > 0 then Published(SkipTo(g, cur, k, n), TurnNext)
        else if KeepsPhase(g.session.turnStatus) then g
        else g.(session := g.session.(turnStatus := AwaitingD6Roll))
  {
    var n := |g.players|;
    var cur := Clamp(g.session.currentTurnOrder, n);
    var k := Run(g.players, n, cur, n);
    NormalizePermutationUnchanged(g);
    LoopIsClosed(g, n);
    if k > 0 {
      var h := SkipTo(g, cur, k, n);
      SkipFirstSameOrders(g.players, cur, k, n);
      SameOrdersPermutation(h.players, g.players);
      CycRange(cur, k, n);
      AnnouncedInRange(h);
    }
  }

  /** advanceTurnConsideringSkips when the holder of the current order has no skips left and the die is awaited. */
  lemma ConsiderSkipsNoSkip(g: Game)
    requires InPlay(g.session) && OrdersArePermutation(g.players) && |g.players| > 0
    requires g.session.turnStatus == AwaitingD6Roll
    requires !HasSkips(g.players, Clamp(g.session.currentTurnOrder, |g.players|))
    ensures ConsiderSkips(g) == g
  {
    ConsiderSkipsClosedForm(g);
  }

  /**
   * advanceTurn in closed form: after normalisation the turn passes to next, the order after the
   * clamped current one; the k holders with skips left from next on are skipped, and TURN_NEXT is
   * announced once, or twice when a turn was skipped.
   */
  lemma AdvancedClosedForm(g: Game)
    requires InPlay(g.session) && |g.players| > 0
    ensures var g1 := NormalizedOrders(g);
      var n := |g.players|;
      var next := Successor(Clamp(g.session.currentTurnOrder, n), n);
      var g2 := g1.(session := ResetTurn(g.session, next));
      var k := Run(g1.players, n, next, n);
      Advanced(g) ==
        if k > 0 then Published(Published(SkipTo(g2, next, k, n), TurnNext), TurnNext)
        else Published(g2, TurnNext)
  {
    var g1 := NormalizedOrders(g);
    var n := |g.players|;
    NormalizedOrdersSpec(g);
    var next := Successor(Clamp(g.session.currentTurnOrder, n), n);
    var g2 := g1.(session := ResetTurn(g.session, next));
    AdvancedSteps(g, g1, g2);
    ConsiderSkipsClosedForm(g2);
    var k := Run(g1.players, n, next, n);
    if k > 0 {
      var h := Published(SkipTo(g2, next, k, n), TurnNext);
      SkipFirstSameOrders(g2.players, next, k, n);
      SameOrdersPermutation(h.players, g2.players);
      CycRange(next, k, n);
      AnnouncedInRange(h);
    } else {
      AnnouncedInRange(g2);
    }
  }

  /** advanceTurn keeps the orders 1..n and leaves the turn with one of them. */
  lemma AdvancedInRange(g: Game)
    requires InPlay(g.session) && |g.players| > 0
    ensures OrdersArePermutation(Advanced(g).players) && |Advanced(g).players| == |g.players|
    ensures 1 <= Advanced(g).session.currentTurnOrder <= |g.players|
  {
    AdvancedClosedForm(g);
    NormalizedOrdersSpec(g);
    var n := |g.players|;
    var g1 := NormalizedOrders(g);
    var next := Successor(Clamp(g.session.currentTurnOrder, n), n);
    var k := Run(g1.players, n, next, n);
    if k > 0 {
      SkipFirstSameOrders(g1.players, next, k, n);
      SameOrdersPermutation(SkipFirst(g1.players, next, k, n), g1.players);
      CycRange(next, k, n);
    }
  }

  /**
   * When the next holder has no skips left, advanceTurn hands the turn to order (c mod n) + 1,
   * treating an order outside 1..n as 1: the die roll is awaited, challenge, dice and fork are
   * cleared, the normalised players are otherwise untouched and one TURN_NEXT is published.
   */
  lemma AdvancedNoSkips(g: Game)
    requires InPlay(g.session) && |g.players| > 0
    requires !HasSkips(NormalizedOrders(g).players,
      Successor(Clamp(g.session.currentTurnOrder, |g.players|), |g.players|))
    ensures var n := |g.players|;
      var c := Clamp(g.session.currentTurnOrder, n);
      var r := Advanced(g);
      r.session == ResetTurn(g.session, c % n + 1).(lastEventSeq := g.session.lastEventSeq + 1, lastEventType := Some(TurnNext)) &&
      r.players == NormalizedOrders(g).players &&
      r.events == g.events + [GameEvent(g.session.lastEventSeq + 1, TurnNext)]
  {
    var n := |g.players|;
    var c := Clamp(g.session.currentTurnOrder, n);
    AdvancedWithoutSkips(g);
    NormalizedOrdersSessionAndSize(g);
    assert Successor(c, n) == c % n + 1;
  }

  /** With no skips at the next holder, advanceTurn is the reset turn announced once. */
  lemma AdvancedWithoutSkips(g: Game)
    requires InPlay(g.session) && |g.players| > 0
    requires !HasSkips(NormalizedOrders(g).players,
      Successor(Clamp(g.session.currentTurnOrder, |g.players|), |g.players|))
    ensures var next := Successor(Clamp(g.session.currentTurnOrder, |g.players|), |g.players|);
      Advanced(g) == Published(NormalizedOrders(g).(session := ResetTurn(g.session, next)), TurnNext)
  {
    var n := |g.players|;
    var next := Successor(Clamp(g.session.currentTurnOrder, n), n);
    AdvancedClosedForm(g);
    assert Run(NormalizedOrders(g).players, n, next, n) == 0;
  }

  /** Normalising the orders keeps the session, the log and the number of players. */
  lemma NormalizedOrdersSessionAndSize(g: Game)
    ensures NormalizedOrders(g).session == g.session && NormalizedOrders(g).events == g.events
    ensures |NormalizedOrders(g).players| == |g.players|
  {
    NormalizedOrdersSpec(g);
  }

  /**
   * When the next holder has skips left, advanceTurn skips the k consecutive holders with skips
   * left from it on and the turn rests with order next + k (cyclically); k TURN_SKIPPED events
   * and then two TURN_NEXT events are published.
   */
  lemma AdvancedSkipping(g: Game)
    requires InPlay(g.session) && |g.players| > 0
    ensures var n := |g.players|;
      var next := Successor(Clamp(g.session.currentTurnOrder, n), n);
      var k := Run(NormalizedOrders(g).players, n, next, n);
      var r := Advanced(g);
      k > 0 ==>
        r.session.currentTurnOrder == Cyc(next, k, n) &&
        1 <= r.session.currentTurnOrder <= n &&
        r.session.lastEventSeq == g.session.lastEventSeq + k + 2 &&
        r.events == g.events + SkipEvents(g.session.lastEventSeq, k)
          + [GameEvent(g.session.lastEventSeq + k + 1, TurnNext)] + [GameEvent(g.session.lastEventSeq + k + 2, TurnNext)]
  {
    AdvancedClosedForm(g);
    NormalizedOrdersSpec(g);
    var n := |g.players|;
    var next := Successor(Clamp(g.session.currentTurnOrder, n), n);
    CycRange(next, Run(NormalizedOrders(g).players, n, next, n), n);
  }
}
