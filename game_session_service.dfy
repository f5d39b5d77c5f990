/**
 * GameSessionService: turn-order bookkeeping, game start, turn advancement with automatic
 * skipping of jailed players, players leaving, the event feed and finishing a game.
 *
 * Each operation has a specification function from the old game to the new one and a method on
 * a Session that performs it field by field, as the service does, proved to agree with it.
 */
module GameSessionService {
  import opened Wrappers
  import opened JavaStrings
  import opened Sorting
  import opened Ranking
  import opened GameModel

  // ---------------------------------------------------------------------------------------
  // publishEvent
  // ---------------------------------------------------------------------------------------

  /** Raises lastEventSeq by one and logs an event under the new number. */
  function Published(g: Game, t: EventType): (r: Game)
    ensures r.session.lastEventSeq == g.session.lastEventSeq + 1
    ensures r.events == g.events + [GameEvent(g.session.lastEventSeq + 1, t)]
    ensures r.players == g.players
  {
    var n := g.session.lastEventSeq + 1;
    g.(session := g.session.(lastEventSeq := n, lastEventType := Some(t)),
       events := g.events + [GameEvent(n, t)])
  }

  /** The log holds consecutive numbers ending at lastEventSeq. */
  ghost predicate LogConsistent(g: Game)
  {
    forall k :: 0 <= k < |g.events| ==>
      g.events[k].seqNo == g.session.lastEventSeq - |g.events| + 1 + k
  }

  /** Publishing keeps the log numbered without gaps, and the newest event carries lastEventSeq. */
  lemma PublishKeepsLogConsistent(g: Game, t: EventType)
    requires LogConsistent(g)
    ensures LogConsistent(Published(g, t))
    ensures Published(g, t).events[|g.events|].seqNo == Published(g, t).session.lastEventSeq
  {
  }

  method PublishEvent(s: Session, t: EventType)
    modifies s
    ensures s.Snap() == Published(old(s.Snap()), t)
  {
    var newSeq := s.lastEventSeq + 1;
    s.lastEventSeq := newSeq;
    s.lastEventType := Some(t);
    s.events := s.events + [GameEvent(newSeq, t)];
  }

  // ---------------------------------------------------------------------------------------
  // Renumbering in sorted order (normalizeTurnOrders, recomputeTurnOrderFromLobbyRoll)
  // ---------------------------------------------------------------------------------------

  /** Each player gets one more than the number of players lt puts before it. */
  function Renumbered(ps: seq<Player>, lt: (int, int) -> bool): (r: seq<Player>)
    ensures |r| == |ps|
    ensures forall i :: 0 <= i < |ps| ==> r[i] == ps[i].(turnOrder := r[i].turnOrder)
  {
    seq(|ps|, i requires 0 <= i < |ps| => ps[i].(turnOrder := 1 + Rank(lt, |ps|, i)))
  }

  /** Renumbering under a strict total order hands out 1..n, in the order lt gives. */
  lemma RenumberedIsPermutation(ps: seq<Player>, lt: (int, int) -> bool)
    requires StrictTotal(lt)
    ensures OrdersArePermutation(Renumbered(ps, lt))
    ensures forall i, j :: 0 <= i < |ps| && 0 <= j < |ps| && lt(i, j) ==>
      Renumbered(ps, lt)[i].turnOrder < Renumbered(ps, lt)[j].turnOrder
  {
    RankIsPermutation(lt, |ps|);
  }

  /**
   * Sorts the positions with the stable sort and numbers them 1..n in sorted order, writing a
   * number only where it differs; changed tells whether any number was written.
   */
  method RenumberInSortedOrder(ps: seq<Player>, lt: (int, int) -> bool) returns (out: seq<Player>, changed: bool)
    requires StrictTotal(lt)
    ensures out == Renumbered(ps, lt)
    ensures changed <==> out != ps
  {
    var n := |ps|;
    var sorted := SortBy(Range(n), Le(lt));
    PositionIsRank(lt, n);
    out, changed := NumberAlong(ps, sorted);
    forall j | 0 <= j < n ensures out[j] == Renumbered(ps, lt)[j] {
      assert j in sorted;
      var k :| 0 <= k < n && sorted[k] == j;
    }
  }

  /** The loop: the player at sorted[k] gets number k + 1, written only where it differs. */
  method NumberAlong(ps: seq<Player>, sorted: seq<int>) returns (out: seq<Player>, changed: bool)
    requires |sorted| == |ps| && Distinct(sorted)
    requires forall k :: 0 <= k < |sorted| ==> 0 <= sorted[k] < |ps|
    ensures |out| == |ps|
    ensures forall k :: 0 <= k < |sorted| ==> out[sorted[k]] == ps[sorted[k]].(turnOrder := k + 1)
    ensures changed <==> out != ps
  {
    var n := |ps|;
    out := ps;
    changed := false;
    var i := 0;
    while i < n
      invariant 0 <= i <= n && |out| == n
      invariant forall k :: 0 <= k < i ==> out[sorted[k]] == ps[sorted[k]].(turnOrder := k + 1)
      invariant forall k :: i <= k < n ==> out[sorted[k]] == ps[sorted[k]]
      invariant changed <==> out != ps
    {
      var p := sorted[i];
      if out[p].turnOrder != i + 1 {
        out := out[p := out[p].(turnOrder := i + 1)];
        assert out[p].turnOrder != ps[p].turnOrder;
        changed := true;
      }
      i := i + 1;
    }
  }

  // ---------------------------------------------------------------------------------------
  // normalizeTurnOrders
  // ---------------------------------------------------------------------------------------

  function OrderAt(ps: seq<Player>, a: int): int
  {
    if 0 <= a < |ps| then ps[a].turnOrder else 0
  }

  /** Ascending turnOrder; equal orders keep join order (the sort is stable). */
  function TurnOrderLt(ps: seq<Player>): (int, int) -> bool
  {
    (a, b) => OrderAt(ps, a) < OrderAt(ps, b) || (OrderAt(ps, a) == OrderAt(ps, b) && a < b)
  }

  lemma TurnOrderLtStrictTotal(ps: seq<Player>)
    ensures StrictTotal(TurnOrderLt(ps))
  {
  }

  function NormalizedOrders(g: Game): Game
  {
    g.(players := Renumbered(g.players, TurnOrderLt(g.players)))
  }

  lemma NormalizedPermutation(ps: seq<Player>)
    ensures OrdersArePermutation(Renumbered(ps, TurnOrderLt(ps)))
  {
    TurnOrderLtStrictTotal(ps);
    RenumberedIsPermutation(ps, TurnOrderLt(ps));
  }

  lemma NormalizedFollowsOrder(ps: seq<Player>, i: int, j: int)
    requires 0 <= i < |ps| && 0 <= j < |ps|
    requires ps[i].turnOrder < ps[j].turnOrder || (i < j && ps[i].turnOrder == ps[j].turnOrder)
    ensures Renumbered(ps, TurnOrderLt(ps))[i].turnOrder < Renumbered(ps, TurnOrderLt(ps))[j].turnOrder
  {
    TurnOrderLtStrictTotal(ps);
    RenumberedIsPermutation(ps, TurnOrderLt(ps));
    assert TurnOrderLt(ps)(i, j);
  }

  /**
   * After normalisation the orders are exactly 1..n, in ascending order of the previous orders,
   * ties in join order, and nothing but turnOrder changes.
   */
  lemma NormalizedOrdersSpec(g: Game)
    ensures OrdersArePermutation(NormalizedOrders(g).players)
    ensures forall i, j ::
      0 <= i < |g.players| && 0 <= j < |g.players| && g.players[i].turnOrder < g.players[j].turnOrder
      ==> NormalizedOrders(g).players[i].turnOrder < NormalizedOrders(g).players[j].turnOrder
    ensures forall i, j ::
      0 <= i < j < |g.players| && g.players[i].turnOrder == g.players[j].turnOrder
      ==> NormalizedOrders(g).players[i].turnOrder < NormalizedOrders(g).players[j].turnOrder
    ensures NormalizedOrders(g).session == g.session && NormalizedOrders(g).events == g.events
  {
    var ps := g.players;
    NormalizedPermutation(ps);
    forall i, j | 0 <= i < |ps| && 0 <= j < |ps| && (ps[i].turnOrder < ps[j].turnOrder || (i < j && ps[i].turnOrder == ps[j].turnOrder))
      ensures Renumbered(ps, TurnOrderLt(ps))[i].turnOrder < Renumbered(ps, TurnOrderLt(ps))[j].turnOrder
    {
      NormalizedFollowsOrder(ps, i, j);
    }
  }

  /** The positions sorted by turnOrder, ties in join order. */
  lemma SortedByTurnOrder(ps: seq<Player>)
    ensures |SortedPositions(TurnOrderLt(ps), |ps|)| == |ps|
    ensures forall k :: 0 <= k < |ps| ==>
      0 <= SortedPositions(TurnOrderLt(ps), |ps|)[k] < |ps| &&
      Rank(TurnOrderLt(ps), |ps|, SortedPositions(TurnOrderLt(ps), |ps|)[k]) == k
    ensures forall i :: 0 <= i < |ps| ==> i in SortedPositions(TurnOrderLt(ps), |ps|)
    ensures forall a, b :: 0 <= a < b < |ps| ==>
      ps[SortedPositions(TurnOrderLt(ps), |ps|)[a]].turnOrder <= ps[SortedPositions(TurnOrderLt(ps), |ps|)[b]].turnOrder &&
      SortedPositions(TurnOrderLt(ps), |ps|)[a] != SortedPositions(TurnOrderLt(ps), |ps|)[b]
  {
    var n := |ps|;
    var lt := TurnOrderLt(ps);
    TurnOrderLtStrictTotal(ps);
    SortedPositionsIncrease(lt, n);
    RankIsPermutation(lt, n);
  }

  /** With orders already 1..n, the k-th position in sorted order holds order k + 1. */
  lemma PermutationSortedKeys(ps: seq<Player>)
    requires OrdersArePermutation(ps)
    ensures |SortedPositions(TurnOrderLt(ps), |ps|)| == |ps|
    ensures forall k :: 0 <= k < |ps| ==>
      0 <= SortedPositions(TurnOrderLt(ps), |ps|)[k] < |ps| &&
      ps[SortedPositions(TurnOrderLt(ps), |ps|)[k]].turnOrder == k + 1
  {
    var n := |ps|;
    SortedByTurnOrder(ps);
    var o := SortedPositions(TurnOrderLt(ps), n);
    var keys := seq(n, k requires 0 <= k < n => ps[o[k]].turnOrder);
    assert forall a, b :: 0 <= a < b < n ==> keys[a] < keys[b];
    assert forall k :: 0 <= k < n ==> 1 <= keys[k] < 1 + n;
    StrictlyIncreasingFill(keys, 1);
    assert forall k :: 0 <= k < n ==> keys[k] == ps[o[k]].turnOrder;
  }

  /** Orders that already are 1..n are left as they are. */
  lemma NormalizePermutationUnchanged(g: Game)
    requires OrdersArePermutation(g.players)
    ensures NormalizedOrders(g) == g
  {
    var ps := g.players;
    var n := |ps|;
    var lt := TurnOrderLt(ps);
    SortedByTurnOrder(ps);
    PermutationSortedKeys(ps);
    var o := SortedPositions(lt, n);
    forall i | 0 <= i < n ensures Renumbered(ps, lt)[i] == ps[i] {
      assert i in o;
      var k :| 0 <= k < n && o[k] == i;
    }
    assert Renumbered(ps, lt) == ps;
  }

  method NormalizeTurnOrders(s: Session)
    modifies s
    ensures s.Snap() == NormalizedOrders(old(s.Snap()))
  {
    var players := s.players;
    if |players| == 0 {
      return;
    }
    TurnOrderLtStrictTotal(players);
    var out, changed := RenumberInSortedOrder(players, TurnOrderLt(players));
    if changed {
      s.players := out;
    }
  }

  // ---------------------------------------------------------------------------------------
  // recomputeTurnOrderFromLobbyRoll
  // ---------------------------------------------------------------------------------------

  /** The comparator's key: lobby roll, join time, id, and the list position stability adds. */
  datatype LobbyKey = LobbyKey(roll: Option<int>, createdAt: int, id: string, pos: int)

  /** Rolls descending, players without a roll last. */
  predicate RollBefore(a: Option<int>, b: Option<int>)
  {
    (a.Some? && b.None?) || (a.Some? && b.Some? && a.value > b.value)
  }

  predicate LobbyKeyLess(x: LobbyKey, y: LobbyKey)
  {
    RollBefore(x.roll, y.roll) ||
    (x.roll == y.roll && (x.createdAt < y.createdAt ||
      (x.createdAt == y.createdAt && (StrLess(x.id, y.id) || (x.id == y.id && x.pos < y.pos)))))
  }

  function LobbyKeyAt(ps: seq<Player>, a: int): LobbyKey
  {
    if 0 <= a < |ps| then LobbyKey(ps[a].lobbyRoll, ps[a].createdAt, ps[a].id, a)
    else LobbyKey(None, 0, "", a)
  }

  function LobbyLt(ps: seq<Player>): (int, int) -> bool
  {
    (a, b) => LobbyKeyLess(LobbyKeyAt(ps, a), LobbyKeyAt(ps, b))
  }

  lemma LobbyKeyLessTransitive(x: LobbyKey, y: LobbyKey, z: LobbyKey)
    requires LobbyKeyLess(x, y) && LobbyKeyLess(y, z)
    ensures LobbyKeyLess(x, z)
  {
    if StrLess(x.id, y.id) && StrLess(y.id, z.id) {
      StrLessTransitive(x.id, y.id, z.id);
    }
  }

  lemma LobbyLtStrictTotal(ps: seq<Player>)
    ensures StrictTotal(LobbyLt(ps))
  {
    var lt := LobbyLt(ps);
    forall a ensures !lt(a, a) {
      StrLessIrreflexive(LobbyKeyAt(ps, a).id);
    }
    forall a, b, c | lt(a, b) && lt(b, c) ensures lt(a, c) {
      LobbyKeyLessTransitive(LobbyKeyAt(ps, a), LobbyKeyAt(ps, b), LobbyKeyAt(ps, c));
    }
    forall a, b | a != b ensures lt(a, b) || lt(b, a) {
      var x, y := LobbyKeyAt(ps, a), LobbyKeyAt(ps, b);
      if x.id != y.id {
        StrLessTotal(x.id, y.id);
      }
    }
  }

  function RecomputedFromLobbyRoll(g: Game): Game
  {
    g.(players := Renumbered(g.players, LobbyLt(g.players)))
  }

  lemma LobbyPermutation(ps: seq<Player>)
    ensures OrdersArePermutation(Renumbered(ps, LobbyLt(ps)))
  {
    LobbyLtStrictTotal(ps);
    RenumberedIsPermutation(ps, LobbyLt(ps));
  }

  lemma LobbyFollowsOrder(ps: seq<Player>, i: int, j: int)
    requires 0 <= i < |ps| && 0 <= j < |ps|
    requires LobbyKeyLess(LobbyKeyAt(ps, i), LobbyKeyAt(ps, j))
    ensures Renumbered(ps, LobbyLt(ps))[i].turnOrder < Renumbered(ps, LobbyLt(ps))[j].turnOrder
  {
    LobbyLtStrictTotal(ps);
    RenumberedIsPermutation(ps, LobbyLt(ps));
    assert LobbyLt(ps)(i, j);
  }

  /**
   * The orders become 1..n: higher rolls first, players without a roll after all who rolled,
   * equal rolls by join time and then by id; nothing but turnOrder changes.
   */
  lemma RecomputedFromLobbyRollSpec(g: Game)
    ensures OrdersArePermutation(RecomputedFromLobbyRoll(g).players)
    ensures forall i, j ::
      0 <= i < |g.players| && 0 <= j < |g.players| &&
      RollBefore(g.players[i].lobbyRoll, g.players[j].lobbyRoll)
      ==> RecomputedFromLobbyRoll(g).players[i].turnOrder < RecomputedFromLobbyRoll(g).players[j].turnOrder
    ensures forall i, j ::
      0 <= i < |g.players| && 0 <= j < |g.players| &&
      g.players[i].lobbyRoll == g.players[j].lobbyRoll && g.players[i].createdAt < g.players[j].createdAt
      ==> RecomputedFromLobbyRoll(g).players[i].turnOrder < RecomputedFromLobbyRoll(g).players[j].turnOrder
    ensures forall i, j ::
      0 <= i < |g.players| && 0 <= j < |g.players| &&
      g.players[i].lobbyRoll == g.players[j].lobbyRoll && g.players[i].createdAt == g.players[j].createdAt &&
      StrLess(g.players[i].id, g.players[j].id)
      ==> RecomputedFromLobbyRoll(g).players[i].turnOrder < RecomputedFromLobbyRoll(g).players[j].turnOrder
    ensures RecomputedFromLobbyRoll(g).session == g.session && RecomputedFromLobbyRoll(g).events == g.events
  {
    var ps := g.players;
    LobbyPermutation(ps);
    forall i, j | 0 <= i < |ps| && 0 <= j < |ps| && LobbyKeyLess(LobbyKeyAt(ps, i), LobbyKeyAt(ps, j))
      ensures Renumbered(ps, LobbyLt(ps))[i].turnOrder < Renumbered(ps, LobbyLt(ps))[j].turnOrder
    {
      LobbyFollowsOrder(ps, i, j);
    }
  }

  method RecomputeTurnOrderFromLobbyRoll(s: Session)
    modifies s
    ensures s.Snap() == RecomputedFromLobbyRoll(old(s.Snap()))
  {
    var players := s.players;
    if |players| == 0 {
      return;
    }
    LobbyLtStrictTotal(players);
    var out, changed := RenumberInSortedOrder(players, LobbyLt(players));
    if changed {
      s.players := out;
    }
  }

  // ---------------------------------------------------------------------------------------
  // computeTiedPlayerIds
  // ---------------------------------------------------------------------------------------

  /** A player who rolled a number some other player also rolled. */
  predicate IsTied(ps: seq<Player>, i: int)
  {
    0 <= i < |ps| && ps[i].lobbyRoll.Some? &&
    exists j :: 0 <= j < |ps| && j != i && ps[j].lobbyRoll == ps[i].lobbyRoll
  }

  function TiedIds(ps: seq<Player>): set<string>
  {
    set i | 0 <= i < |ps| && IsTied(ps, i) :: ps[i].id
  }

  /** The positions, in order, of the players who rolled r. */
  function WithRoll(ps: seq<Player>, r: int): (idx: seq<nat>)
    ensures forall m :: 0 <= m < |idx| ==> idx[m] < |ps| && ps[idx[m]].lobbyRoll == Some(r)
    ensures forall a, b :: 0 <= a < b < |idx| ==> idx[a] < idx[b]
    ensures forall k :: 0 <= k < |ps| && ps[k].lobbyRoll == Some(r) ==> k in idx
  {
    if ps == [] then []
    else
      var init := ps[..|ps| - 1];
      var rest := WithRoll(init, r);
      assert forall k :: 0 <= k < |init| ==> init[k] == ps[k];
      rest + (if ps[|ps| - 1].lobbyRoll == Some(r) then [|ps| - 1] else [])
  }

  function RollsOf(ps: seq<Player>): set<int>
  {
    set k | 0 <= k < |ps| && ps[k].lobbyRoll.Some? :: ps[k].lobbyRoll.value
  }

  function IdsAt(ps: seq<Player>, idx: seq<nat>): (ids: seq<string>)
    requires forall m :: 0 <= m < |idx| ==> idx[m] < |ps|
    ensures |ids| == |idx| && forall m :: 0 <= m < |idx| ==> ids[m] == ps[idx[m]].id
  {
    seq(|idx|, m requires 0 <= m < |idx| => ps[idx[m]].id)
  }

  /** The tied players among those whose roll is in done. */
  ghost function TiedIdsAmong(ps: seq<Player>, done: set<int>): set<string>
  {
    set k | 0 <= k < |ps| && IsTied(ps, k) && ps[k].lobbyRoll.value in done :: ps[k].id
  }

  lemma {:induction false} WithRollPrefix(ps: seq<Player>, i: nat, r: int)
    requires i < |ps|
    ensures WithRoll(ps[..i + 1], r) == WithRoll(ps[..i], r) + (if ps[i].lobbyRoll == Some(r) then [i] else [])
  {
    assert ps[..i + 1][..i] == ps[..i];
  }

  /** A group of two or more is exactly a tie of each member. */
  lemma GroupTied(ps: seq<Player>, r: int, k: int)
    requires 0 <= k < |ps| && ps[k].lobbyRoll == Some(r)
    ensures IsTied(ps, k) <==> |WithRoll(ps, r)| > 1
  {
    var idx := WithRoll(ps, r);
    if |idx| > 1 {
      var j := if idx[0] == k then idx[1] else idx[0];
      assert j != k && ps[j].lobbyRoll == ps[k].lobbyRoll;
    }
    if IsTied(ps, k) {
      var j :| 0 <= j < |ps| && j != k && ps[j].lobbyRoll == ps[k].lobbyRoll;
      assert k in idx && j in idx;
      var a :| 0 <= a < |idx| && idx[a] == k;
      var b :| 0 <= b < |idx| && idx[b] == j;
      assert a != b;
    }
  }

  /** byRoll groups the first i players by roll, in join order. */
  ghost predicate GroupedUpTo(ps: seq<Player>, i: nat, byRoll: map<int, seq<nat>>)
    requires i <= |ps|
  {
    byRoll.Keys == RollsOf(ps[..i]) &&
    forall r :: r in byRoll ==> byRoll[r] == WithRoll(ps[..i], r)
  }

  /** The map after player i is appended to its roll's group (computeIfAbsent(...).add). */
  function AddToGroup(byRoll: map<int, seq<nat>>, ps: seq<Player>, i: nat): map<int, seq<nat>>
    requires i < |ps|
  {
    if ps[i].lobbyRoll.None? then byRoll
    else
      var r := ps[i].lobbyRoll.value;
      byRoll[r := (if r in byRoll then byRoll[r] else []) + [i]]
  }

  lemma RollsOfPrefix(ps: seq<Player>, i: nat)
    requires i < |ps|
    ensures RollsOf(ps[..i + 1]) == RollsOf(ps[..i]) + (if ps[i].lobbyRoll.Some? then {ps[i].lobbyRoll.value} else {})
  {
    var a := ps[..i];
    var b := ps[..i + 1];
    assert forall k :: 0 <= k < i ==> b[k] == a[k];
    assert b[i] == ps[i];
  }

  lemma RollOfGroupMember(ps: seq<Player>, r: int)
    ensures WithRoll(ps, r) != [] ==> r in RollsOf(ps)
  {
    if WithRoll(ps, r) != [] {
      var k := WithRoll(ps, r)[0];
      assert ps[k].lobbyRoll == Some(r);
    }
  }

  /** One group after player i is added: it is still the players of that roll, in order. */
  lemma GroupEntryStep(ps: seq<Player>, i: nat, byRoll: map<int, seq<nat>>, q: int)
    requires i < |ps| && GroupedUpTo(ps, i, byRoll)
    requires q in AddToGroup(byRoll, ps, i)
    ensures AddToGroup(byRoll, ps, i)[q] == WithRoll(ps[..i + 1], q)
  {
    WithRollPrefix(ps, i, q);
    if q !in byRoll {
      RollOfGroupMember(ps[..i], q);
    }
  }

  lemma GroupStep(ps: seq<Player>, i: nat, byRoll: map<int, seq<nat>>)
    requires i < |ps| && GroupedUpTo(ps, i, byRoll)
    ensures GroupedUpTo(ps, i + 1, AddToGroup(byRoll, ps, i))
  {
    var next := AddToGroup(byRoll, ps, i);
    RollsOfPrefix(ps, i);
    assert next.Keys == RollsOf(ps[..i + 1]);
    forall q | q in next ensures next[q] == WithRoll(ps[..i + 1], q) {
      GroupEntryStep(ps, i, byRoll, q);
    }
  }

  function Elems(s: seq<string>): set<string>
  {
    set x | x in s
  }

  /** The ids of group r, when it has two or more members, are the ties of roll r. */
  lemma GroupIds(ps: seq<Player>, r: int)
    ensures Elems(if |WithRoll(ps, r)| > 1 then IdsAt(ps, WithRoll(ps, r)) else [])
         == set k | 0 <= k < |ps| && IsTied(ps, k) && ps[k].lobbyRoll == Some(r) :: ps[k].id
  {
    var group := WithRoll(ps, r);
    var ids := if |group| > 1 then IdsAt(ps, group) else [];
    var want := set k | 0 <= k < |ps| && IsTied(ps, k) && ps[k].lobbyRoll == Some(r) :: ps[k].id;
    forall x | x in want ensures x in ids {
      var k :| 0 <= k < |ps| && IsTied(ps, k) && ps[k].lobbyRoll == Some(r) && ps[k].id == x;
      GroupTied(ps, r, k);
      var m :| 0 <= m < |group| && group[m] == k;
      assert ids[m] == x;
    }
    forall x | x in ids ensures x in want {
      var m :| 0 <= m < |ids| && ids[m] == x;
      GroupTied(ps, r, group[m]);
    }
  }

  lemma TiedAmongAdd(ps: seq<Player>, done: set<int>, r: int)
    ensures TiedIdsAmong(ps, done + {r})
         == TiedIdsAmong(ps, done) + set k | 0 <= k < |ps| && IsTied(ps, k) && ps[k].lobbyRoll == Some(r) :: ps[k].id
  {
  }

  /** tied holds exactly the tied players among the rolls in done. */
  ghost predicate CollectedFor(ps: seq<Player>, tied: seq<string>, done: set<int>)
  {
    Elems(tied) == TiedIdsAmong(ps, done)
  }

  /** Adding the ids of group r when it has two or more members collects the ties of roll r. */
  lemma CollectStep(ps: seq<Player>, byRoll: map<int, seq<nat>>, done: set<int>, r: int, tied: seq<string>)
    requires GroupedUpTo(ps, |ps|, byRoll) && r in byRoll
    requires CollectedFor(ps, tied, done)
    ensures |byRoll[r]| > 1 ==> CollectedFor(ps, tied + IdsAt(ps, byRoll[r]), done + {r})
    ensures |byRoll[r]| <= 1 ==> CollectedFor(ps, tied, done + {r})
  {
    assert ps[..|ps|] == ps;
    var extra := if |byRoll[r]| > 1 then IdsAt(ps, byRoll[r]) else [];
    assert Elems(tied + extra) == Elems(tied) + Elems(extra);
    assert |byRoll[r]| <= 1 ==> tied + extra == tied;
    GroupIds(ps, r);
    TiedAmongAdd(ps, done, r);
  }

  lemma TiedAmongAll(ps: seq<Player>)
    ensures TiedIdsAmong(ps, RollsOf(ps)) == TiedIds(ps)
  {
    forall k | 0 <= k < |ps| && IsTied(ps, k) ensures ps[k].id in TiedIdsAmong(ps, RollsOf(ps)) {
      assert ps[k].lobbyRoll.value in RollsOf(ps);
    }
  }

  /**
   * Groups the players by lobby roll (skipping those without one) and collects the ids of every
   * group of two or more; the groups are visited in an unspecified order.
   */
  method ComputeTiedPlayerIds(ps: seq<Player>) returns (tied: seq<string>)
    ensures Elems(tied) == TiedIds(ps)
  {
    var byRoll := GroupByRoll(ps);
    tied := CollectTies(ps, byRoll);
    TiedAmongAll(ps);
  }

  /** The first loop: each player with a roll is appended to the group of that roll. */
  method GroupByRoll(ps: seq<Player>) returns (byRoll: map<int, seq<nat>>)
    ensures GroupedUpTo(ps, |ps|, byRoll)
  {
    byRoll := map[];
    var i := 0;
    while i < |ps|
      invariant 0 <= i <= |ps|
      invariant GroupedUpTo(ps, i, byRoll)
    {
      GroupStep(ps, i, byRoll);
      if ps[i].lobbyRoll.Some? {
        var r := ps[i].lobbyRoll.value;
        var group := if r in byRoll then byRoll[r] else [];
        byRoll := byRoll[r := group + [i]];
      }
      i := i + 1;
    }
  }

  /** Some element of a non-empty set: the order a HashMap hands out its entries is not specified. */
  method AnyOf(keys: set<int>) returns (r: int)
    requires keys != {}
    ensures r in keys
  {
    NoMemberEmpty(keys);
    r :| r in keys;
  }

  lemma NoMemberEmpty(s: set<int>)
    ensures (forall x :: x !in s) ==> s == {}
  {
    if forall x :: x !in s {
      assert forall x :: x in s <==> x in {};
    }
  }

  /** The second loop: the ids of every group of two or more, the groups taken in any order. */
  method CollectTies(ps: seq<Player>, byRoll: map<int, seq<nat>>) returns (tied: seq<string>)
    requires GroupedUpTo(ps, |ps|, byRoll)
    ensures Elems(tied) == TiedIdsAmong(ps, RollsOf(ps))
  {
    assert ps[..|ps|] == ps;
    tied := [];
    var keys := byRoll.Keys;
    ghost var done: set<int> := {};
    while keys != {}
      invariant keys <= byRoll.Keys && done == byRoll.Keys - keys
      invariant CollectedFor(ps, tied, done)
      decreases |keys|
    {
      var r := AnyOf(keys);
      CollectStep(ps, byRoll, done, r, tied);
      if |byRoll[r]| > 1 {
        tied := tied + IdsAt(ps, byRoll[r]);
      }
      keys := keys - {r};
      done := done + {r};
    }
  }

  // ---------------------------------------------------------------------------------------
  // advanceTurn, advanceTurnConsideringSkips, announceCurrentTurn
  // ---------------------------------------------------------------------------------------

  /** An order outside 1..n counts as order 1. */
  function Clamp(c: int, n: int): (r: int)
    ensures n >= 1 ==> 1 <= r <= n
    ensures 1 <= c <= n ==> r == c
  {
    if c < 1 || c > n then 1 else c
  }

  /** The order after c, wrapping from n back to 1. */
  function Successor(c: int, n: int): (r: int)
    ensures 1 <= c <= n ==> 1 <= r <= n && r == c % n + 1
  {
    if c + 1 > n then 1 else c + 1
  }

  /** The phases a non-skipping current player keeps; any other phase is reset to the die roll. */
  predicate KeepsPhase(t: TurnPhase)
  {
    t == AwaitingD6Roll || t == AwaitingPathChoice || t == InChallenge || t == AwaitingConfirm || t == Idle
  }

  /** A skipped turn: back from jail to a non-blank return node, one skip fewer. */
  function Skipped(p: Player): (r: Player)
    ensures r.skipTurns == p.skipTurns - 1
    ensures r.turnOrder == p.turnOrder && r.id == p.id
  {
    var back := if p.jailReturnNodeId.Some? && !IsBlank(p.jailReturnNodeId.value)
      then p.(positionNodeId := p.jailReturnNodeId, jailReturnNodeId := None)
      else p;
    back.(skipTurns := back.skipTurns - 1)
  }

  /** Player k skips: the event is published and the turn passes to the order after cur. */
  function ResetSkipped(g: Game, k: nat, cur: int, n: nat): Game
    requires k < |g.players|
  {
    var g1 := Published(g.(players := g.players[k := Skipped(g.players[k])]), TurnSkipped);
    g1.(session := ResetTurn(g1.session, Successor(cur, n)))
  }

  /**
   * One round of the skip loop: the current order is read and clamped into 1..n; a holder with
   * skips left is skipped and the turn moves on (true); otherwise the round stops the loop (false),
   * resetting a phase the holder may not keep.
   */
  function SkipRound(g: Game, n: nat): (Game, bool)
  {
    var cur := Clamp(g.session.currentTurnOrder, n);
    match FirstWithOrder(g.players, cur)
    case None => (g, false)
    case Some(k) =>
      if g.players[k].skipTurns > 0 then (ResetSkipped(g, k, cur, n), true)
      else if KeepsPhase(g.session.turnStatus) then (g, false)
      else (g.(session := g.session.(turnStatus := AwaitingD6Roll)), false)
  }

  /** The skip loop with safety rounds left; the second component says whether a turn was skipped. */
  function SkipLoop(g: Game, n: nat, safety: nat): (Game, bool)
    decreases safety
  {
    if safety == 0 then (g, false)
    else
      var (g1, skipped) := SkipRound(g, n);
      if skipped then (SkipLoop(g1, n, safety - 1).0, true) else (g1, false)
  }

  /** announceCurrentTurn: a TURN_NEXT event when some player holds the current order. */
  function Announced(g: Game): Game
  {
    if !g.session.started || g.session.status == Finished then g
    else
      var g1 := NormalizedOrders(g);
      if |g1.players| == 0 then g1
      else if FirstWithOrder(g1.players, g1.session.currentTurnOrder).Some? then Published(g1, TurnNext)
      else g1
  }

  /** advanceTurnConsideringSkips: normalize, run the skip loop n times at most, announce if it skipped. */
  function ConsiderSkips(g: Game): Game
  {
    if g.session.status == Finished || !g.session.started then g
    else
      var g1 := NormalizedOrders(g);
      if |g1.players| == 0 then g1
      else
        var (g2, skipped) := SkipLoop(g1, |g1.players|, |g1.players|);
        if skipped then Announced(g2) else g2
  }

  /** advanceTurn: the turn passes to the next order, then skips are consumed and the turn announced. */
  function Advanced(g: Game): Game
  {
    if g.session.status == Finished || !g.session.started then g
    else
      var g1 := NormalizedOrders(g);
      var n := |g1.players|;
      if n == 0 then g1
      else
        var next := Successor(Clamp(g1.session.currentTurnOrder, n), n);
        Announced(ConsiderSkips(g1.(session := ResetTurn(g1.session, next))))
  }

  lemma {:induction false} FirstWithOrderPrefix(ps: seq<Player>, i: nat, o: int)
    requires i < |ps|
    ensures FirstWithOrder(ps[..i + 1], o)
         == if FirstWithOrder(ps[..i], o).Some? then FirstWithOrder(ps[..i], o)
            else if ps[i].turnOrder == o then Some(i) else None
  {
    var a := ps[..i];
    var b := ps[..i + 1];
    assert forall k :: 0 <= k < i ==> b[k] == a[k];
    assert b[i] == ps[i];
    match FirstWithOrder(a, o) {
      case Some(k) =>
        FirstWithOrderIs(b, o, k);
      case None =>
        if ps[i].turnOrder == o {
          FirstWithOrderIs(b, o, i);
        }
    }
  }

  /** The first holder is the position that holds the order with no holder before it. */
  lemma FirstWithOrderIs(ps: seq<Player>, o: int, k: nat)
    requires k < |ps| && ps[k].turnOrder == o
    requires forall j :: 0 <= j < k ==> ps[j].turnOrder != o
    ensures FirstWithOrder(ps, o) == Some(k)
  {
    var r := FirstWithOrder(ps, o);
    assert r.Some?;
    assert ps[k].turnOrder == o && ps[r.value].turnOrder == o;
  }

  /** byOrder maps exactly the orders some player holds, each to the first player holding it. */
  ghost predicate Indexes(byOrder: map<int, nat>, ps: seq<Player>)
  {
    forall o :: (o in byOrder <==> FirstWithOrder(ps, o).Some?) &&
      (o in byOrder ==> FirstWithOrder(ps, o) == Some(byOrder[o]))
  }

  /** toMap(getTurnOrder, p -> p, (a, b) -> a): each order maps to the first player holding it. */
  method IndexByOrder(ps: seq<Player>) returns (byOrder: map<int, nat>)
    ensures Indexes(byOrder, ps)
  {
    byOrder := map[];
    var i := 0;
    while i < |ps|
      invariant 0 <= i <= |ps|
      invariant forall o :: o in byOrder <==> FirstWithOrder(ps[..i], o).Some?
      invariant forall o :: o in byOrder ==> FirstWithOrder(ps[..i], o) == Some(byOrder[o])
    {
      forall o {
        FirstWithOrderPrefix(ps, i, o);
      }
      if ps[i].turnOrder !in byOrder {
        byOrder := byOrder[ps[i].turnOrder := i];
      }
      i := i + 1;
    }
    assert ps[..i] == ps;
  }

  /** Players with the same orders position for position have the same first holder of each order. */
  lemma {:induction false} SameOrdersSameFirst(ps: seq<Player>, qs: seq<Player>, o: int)
    requires |ps| == |qs| && forall i :: 0 <= i < |ps| ==> ps[i].turnOrder == qs[i].turnOrder
    ensures FirstWithOrder(ps, o) == FirstWithOrder(qs, o)
  {
    if ps != [] {
      SameOrdersSameFirst(ps[1..], qs[1..], o);
    }
  }

  method AnnounceCurrentTurn(s: Session)
    modifies s
    ensures s.Snap() == Announced(old(s.Snap()))
  {
    if !s.started || s.status == Finished {
      return;
    }
    NormalizeTurnOrders(s);
    if |s.players| == 0 {
      return;
    }
    if FirstWithOrder(s.players, s.currentTurnOrder).Some? {
      PublishEvent(s, TurnNext);
    }
  }

  /** Position for position the same turn orders. */
  ghost predicate SameOrders(ps: seq<Player>, qs: seq<Player>)
  {
    |ps| == |qs| && forall i :: 0 <= i < |ps| ==> ps[i].turnOrder == qs[i].turnOrder
  }

  /** The body of the skip loop; byOrder indexes ps0, whose orders the players keep. */
  method SkipOneRound(s: Session, byOrder: map<int, nat>, n: nat, ghost ps0: seq<Player>) returns (skipped: bool)
    requires n == |s.players| && SameOrders(s.players, ps0)
    requires Indexes(byOrder, ps0)
    modifies s
    ensures s.Snap() == SkipRound(old(s.Snap()), n).0
    ensures skipped == SkipRound(old(s.Snap()), n).1
    ensures SameOrders(s.players, ps0)
    ensures s.started == old(s.started) && s.status == old(s.status)
  {
    ghost var g := s.Snap();
    SkipRoundFrame(g, n);
    var curOrder := s.currentTurnOrder;
    if curOrder < 1 || curOrder > n {
      curOrder := 1;
    }
    SameOrdersSameFirst(s.players, ps0, curOrder);
    if curOrder !in byOrder {
      return false;
    }
    var k := byOrder[curOrder];
    if s.players[k].skipTurns > 0 {
      SkipPlayer(s, k, curOrder, n);
      return true;
    }
    if !KeepsPhase(s.turnStatus) {
      s.turnStatus := AwaitingD6Roll;
    }
    return false;
  }

  /** The skip branch: the player's turn is consumed, the skip published, the turn moves on. */
  method SkipPlayer(s: Session, k: nat, curOrder: int, n: nat)
    requires k < |s.players|
    modifies s
    ensures s.Snap() == ResetSkipped(old(s.Snap()), k, curOrder, n)
  {
    var cur := ConsumeSkip(s.players[k]);
    s.SetPlayer(k, cur);
    PublishEvent(s, TurnSkipped);
    var next := curOrder + 1;
    if next > n {
      next := 1;
    }
    s.PassTurnTo(next);
  }

  /** The skipped player's record: returned from jail to a non-blank return node, one skip fewer. */
  method ConsumeSkip(p: Player) returns (cur: Player)
    ensures cur == Skipped(p)
  {
    cur := p;
    if cur.jailReturnNodeId.Some? && !IsBlank(cur.jailReturnNodeId.value) {
      cur := cur.(positionNodeId := cur.jailReturnNodeId, jailReturnNodeId := None);
    }
    cur := cur.(skipTurns := cur.skipTurns - 1);
  }

  /** A round changes no turn order and neither the start flag nor the status. */
  lemma SkipRoundFrame(g: Game, n: nat)
    ensures SameOrders(SkipRound(g, n).0.players, g.players)
    ensures SkipRound(g, n).0.session.started == g.session.started
    ensures SkipRound(g, n).0.session.status == g.session.status
  {
  }

  method AdvanceTurnConsideringSkips(s: Session)
    modifies s
    ensures s.Snap() == ConsiderSkips(old(s.Snap()))
  {
    if s.status == Finished || !s.started {
      return;
    }
    NormalizeTurnOrders(s);
    if |s.players| == 0 {
      return;
    }
    var byOrder := IndexByOrder(s.players);
    var skippedAny := RunSkipLoop(s, byOrder, |s.players|);
    if skippedAny {
      AnnounceCurrentTurn(s);
    }
  }

  /** The loop `while (safety-- > 0)` with safety starting at n. */
  method RunSkipLoop(s: Session, byOrder: map<int, nat>, n: nat) returns (skippedAny: bool)
    requires n == |s.players|
    requires Indexes(byOrder, s.players)
    modifies s
    ensures s.Snap() == SkipLoop(old(s.Snap()), n, n).0
    ensures skippedAny == SkipLoop(old(s.Snap()), n, n).1
  {
    ghost var g1 := s.Snap();
    ghost var target := SkipLoop(g1, n, n);
    var safety: nat := n;
    skippedAny := false;
    while safety > 0
      invariant |s.players| == n && SameOrders(s.players, g1.players)
      invariant SkipLoop(s.Snap(), n, safety).0 == target.0
      invariant (skippedAny || SkipLoop(s.Snap(), n, safety).1) == target.1
    {
      ghost var before := s.Snap();
      var skipped := SkipOneRound(s, byOrder, n, g1.players);
      SkipLoopStep(before, n, safety, skippedAny, target);
      safety := safety - 1;
      if !skipped {
        break;
      }
      skippedAny := true;
    }
  }

  /** One pass of the loop body, in terms of the rounds still to run. */
  lemma SkipLoopStep(before: Game, n: nat, safety: nat, skippedAny: bool, target: (Game, bool))
    requires safety > 0
    requires SkipLoop(before, n, safety).0 == target.0
    requires (skippedAny || SkipLoop(before, n, safety).1) == target.1
    ensures !SkipRound(before, n).1 ==> SkipRound(before, n).0 == target.0 && skippedAny == target.1
    ensures SkipRound(before, n).1 ==> SkipLoop(SkipRound(before, n).0, n, safety - 1).0 == target.0 && target.1
  {
    SkipLoopUnfold(before, n, safety);
  }

  lemma SkipLoopUnfold(g: Game, n: nat, safety: nat)
    requires safety > 0
    ensures SkipLoop(g, n, safety)
         == if SkipRound(g, n).1 then (SkipLoop(SkipRound(g, n).0, n, safety - 1).0, true) else (SkipRound(g, n).0, false)
  {
  }

  method AdvanceTurn(s: Session)
    modifies s
    ensures s.Snap() == Advanced(old(s.Snap()))
  {
    if s.status == Finished || !s.started {
      return;
    }
    ghost var g0 := s.Snap();
    NormalizeTurnOrders(s);
    if |s.players| == 0 {
      return;
    }
    ghost var g1 := s.Snap();
    var n := |s.players|;
    var current := s.currentTurnOrder;
    if current < 1 || current > n {
      current := 1;
    }
    var next := current + 1;
    if next > n {
      next := 1;
    }
    s.PassTurnTo(next);
    ghost var g2 := s.Snap();
    AdvanceTurnConsideringSkips(s);
    AnnounceCurrentTurn(s);
    AdvancedSteps(g0, g1, g2);
  }

  /** Advanced, step by step as the method takes it. */
  lemma AdvancedSteps(g0: Game, g1: Game, g2: Game)
    requires InPlay(g0.session) && g1 == NormalizedOrders(g0) && |g1.players| > 0
    requires g2 == g1.(session := ResetTurn(g1.session, Successor(Clamp(g1.session.currentTurnOrder, |g1.players|), |g1.players|)))
    ensures Advanced(g0) == Announced(ConsiderSkips(g2))
  {
  }
}
