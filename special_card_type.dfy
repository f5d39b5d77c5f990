/**
 * The special deck (SpecialCardType.java): eight cards, four of which help the player who
 * draws them. The cards are drawn in real life; the app only selects one to resolve it.
 */
module SpecialCardTypes {

  datatype SpecialCardType =
    | PermissionDenied
    | RageBait
    | Refactor
    | SecondChance
    | ShortcutFound
    | Rollback
    | Boost
    | Jail

  /** isPositive: the cards that help the player who plays them. */
  predicate IsPositive(c: SpecialCardType)
  {
    c.Refactor? || c.SecondChance? || c.ShortcutFound? || c.Boost?
  }

  /** The cards in declaration order, as values() lists them. */
  const AllCards: seq<SpecialCardType> :=
    [PermissionDenied, RageBait, Refactor, SecondChance, ShortcutFound, Rollback, Boost, Jail]

  /** ordinal(): the position of a card in declaration order. */
  function Ordinal(c: SpecialCardType): (r: nat)
    ensures r < |AllCards| && AllCards[r] == c
  {
    match c
    case PermissionDenied => 0
    case RageBait => 1
    case Refactor => 2
    case SecondChance => 3
    case ShortcutFound => 4
    case Rollback => 5
    case Boost => 6
    case Jail => 7
  }

  /** The cards of cs from position i on that are positive, in the order of cs. */
  function PositivesFrom(cs: seq<SpecialCardType>, i: nat): (r: seq<SpecialCardType>)
    requires i <= |cs|
    ensures forall j :: 0 <= j < |r| ==> IsPositive(r[j])
    ensures |r| <= |cs| - i
    decreases |cs| - i
  {
    if i == |cs| then []
    else (if IsPositive(cs[i]) then [cs[i]] else []) + PositivesFrom(cs, i + 1)
  }

  /** The deck is closed: every card appears in it exactly once, and there are eight. */
  lemma DeckIsClosed()
    ensures |AllCards| == 8
    ensures forall c :: c in AllCards
    ensures forall i, j :: 0 <= i < j < |AllCards| ==> AllCards[i] != AllCards[j]
  {
    forall c: SpecialCardType ensures c in AllCards {
      assert AllCards[Ordinal(c)] == c;
    }
  }

  /** Exactly four cards of the deck are positive: REFACTOR, SECOND_CHANCE, SHORTCUT_FOUND and BOOST. */
  lemma FourPositive()
    ensures PositivesFrom(AllCards, 0) == [Refactor, SecondChance, ShortcutFound, Boost]
  {
    var tail := [Refactor, SecondChance, ShortcutFound, Boost];
    assert PositivesFrom(AllCards, 7) == [];
    assert PositivesFrom(AllCards, 6) == tail[3..];
    assert PositivesFrom(AllCards, 5) == tail[3..];
    assert PositivesFrom(AllCards, 4) == tail[2..];
    assert PositivesFrom(AllCards, 3) == tail[1..];
    assert PositivesFrom(AllCards, 2) == tail;
  }

}
