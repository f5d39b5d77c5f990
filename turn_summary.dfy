/**
 * The turn summary screen's guess at who plays next (TurnSummary.computeNextPlayer): the
 * player whose turn order follows the current one, wrapping to order 1 after the last.
 */
module TurnSummary {
  import opened Wrappers
  import opened Sorting

  /** A player as the screen receives it; turnOrder may be missing (null). */
  datatype TurnPlayer = TurnPlayer(id: string, turnOrder: Option<int>)

  /** The sort key `a.turnOrder || 0`: a missing order (and order 0) sorts as 0. */
  function SortKey(p: TurnPlayer): int
  {
    p.turnOrder.GetOr(0)
  }

  function ByOrder(): (TurnPlayer, TurnPlayer) -> bool
  {
    (a: TurnPlayer, b: TurnPlayer) => SortKey(a) <= SortKey(b)
  }

  /**
   * The order after cur among n players: `Number(current) || 1` reads a missing or zero
   * current order as 1; one past n wraps to 1.
   */
  function NextOrder(n: nat, current: Option<int>): (r: int)
    requires n > 0
    ensures var cur := if current.None? || current.value == 0 then 1 else current.value;
      (cur + 1 <= n ==> r == cur + 1) && (cur + 1 > n ==> r == 1)
    ensures current.Some? && 1 <= current.value <= n ==> 1 <= r <= n
    ensures current.Some? && current.value == n ==> r == 1
  {
    var cur := if current.None? || current.value == 0 then 1 else current.value;
    if cur + 1 > n then 1 else cur + 1
  }

  predicate HasOrder(p: TurnPlayer, order: int)
  {
    p.turnOrder == Some(order)
  }

  /** Array.prototype.find: the first player holding the order. */
  function FindOrder(ps: seq<TurnPlayer>, order: int): (r: Option<TurnPlayer>)
    ensures r.Some? ==> r.value in ps && HasOrder(r.value, order)
    ensures r.None? <==> forall i :: 0 <= i < |ps| ==> !HasOrder(ps[i], order)
  {
    if ps == [] then None
    else if HasOrder(ps[0], order) then Some(ps[0])
    else FindOrder(ps[1..], order)
  }

  /**
   * computeNextPlayer: players is None when it is not an array. The list is sorted (stably) by
   * order into a copy and the first player with the next order is returned, or None.
   */
  function NextPlayer(players: Option<seq<TurnPlayer>>, current: Option<int>): (r: Option<TurnPlayer>)
    ensures (players.None? || players.value == []) ==> r.None?
    ensures r.Some? ==> r.value in players.value && HasOrder(r.value, NextOrder(|players.value|, current))
    ensures players.Some? && players.value != [] ==>
      (r.None? <==> forall i :: 0 <= i < |players.value| ==> !HasOrder(players.value[i], NextOrder(|players.value|, current)))
  {
    if players.None? || players.value == [] then None
    else
      var sorted := SortBy(players.value, ByOrder());
      var next := NextOrder(|players.value|, current);
      var r := FindOrder(sorted, next);
      if r.None? then
        NoneInSorted(players.value, sorted, next);
        r
      else
        assert r.value in multiset(sorted);
        r
  }

  lemma NoneInSorted(ps: seq<TurnPlayer>, sorted: seq<TurnPlayer>, order: int)
    requires multiset(sorted) == multiset(ps)
    requires forall i :: 0 <= i < |sorted| ==> !HasOrder(sorted[i], order)
    ensures forall i :: 0 <= i < |ps| ==> !HasOrder(ps[i], order)
  {
    forall i | 0 <= i < |ps| ensures !HasOrder(ps[i], order) {
      assert ps[i] in multiset(ps);
      var j :| 0 <= j < |sorted| && sorted[j] == ps[i];
    }
  }

  // ---------------------------------------------------------------------------------------
  // Properties
  // ---------------------------------------------------------------------------------------

  /** Every player holding the order lies in the sort class of that order. */
  lemma {:induction false} FindOrderInClass(ps: seq<TurnPlayer>, order: int)
    ensures FindOrder(ClassOf(ps, TurnPlayer("", Some(order)), ByOrder()), order) == FindOrder(ps, order)
    decreases |ps|
  {
    if ps != [] {
      var key := TurnPlayer("", Some(order));
      FindOrderInClass(ps[1..], order);
      var c := if ByOrder()(ps[0], key) && ByOrder()(key, ps[0]) then [ps[0]] else [];
      var rest := ClassOf(ps[1..], key, ByOrder());
      assert ClassOf(ps, key, ByOrder()) == c + rest;
      if c != [] {
        assert (c + rest)[0] == ps[0];
        assert (c + rest)[1..] == rest;
      } else {
        assert c + rest == rest;
      }
    }
  }

  /**
   * Sorting does not change the answer: the next player is the first holder of the next order
   * in the list as given, because the sort is stable and only the holders of that order match.
   */
  lemma NextPlayerIsFirstHolder(players: seq<TurnPlayer>, current: Option<int>)
    requires players != []
    ensures NextPlayer(Some(players), current) == FindOrder(players, NextOrder(|players|, current))
  {
    var next := NextOrder(|players|, current);
    var key := TurnPlayer("", Some(next));
    var sorted := SortBy(players, ByOrder());
    SortByStable(players, key, ByOrder());
    FindOrderInClass(sorted, next);
    FindOrderInClass(players, next);
  }

  /** With orders 1..n held once each, the holder of order n hands over to the holder of order 1. */
  lemma LastWrapsToFirst(players: seq<TurnPlayer>, k: nat)
    requires k < |players| && HasOrder(players[k], 1)
    requires forall i :: 0 <= i < |players| && i != k ==> !HasOrder(players[i], 1)
    ensures NextPlayer(Some(players), Some(|players|)) == Some(players[k])
  {
    NextPlayerIsFirstHolder(players, Some(|players|));
    FirstHolderIs(players, 1, k);
  }

  lemma {:induction false} FirstHolderIs(ps: seq<TurnPlayer>, order: int, k: nat)
    requires k < |ps| && HasOrder(ps[k], order)
    requires forall i :: 0 <= i < k ==> !HasOrder(ps[i], order)
    ensures FindOrder(ps, order) == Some(ps[k])
    decreases k
  {
    if k > 0 {
      FirstHolderIs(ps[1..], order, k - 1);
    }
  }
}
