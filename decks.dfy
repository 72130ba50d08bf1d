/** The ordered 52-card deck (DeckInitializer.java). */
module Decks {
  import opened Ranks
  import opened Suits
  import opened Cards

  /** Suit-major, rank-minor, every card face-down: position 13 * s + r holds suit s with rank r. */
  function StandardDeck(): seq<Card>
  {
    seq(52, i requires 0 <= i < 52 => NewCard(Ranks.FromOrdinal(i % 13), Suits.FromOrdinal(i / 13)))
  }

  class DeckInitializer {
    var deck: seq<Card>

    /** Appends a new card for every suit, and within it every rank, in declaration order. */
    constructor ()
      ensures deck == StandardDeck()
    {
      deck := [];
      new;
      var suits := [Hearts, Diamonds, Clubs, Spades];
      var ranks := [Ace, Two, Three, Four, Five, Six, Seven, Eight, Nine, Ten, Jack, Queen, King];
      for s := 0 to 4
        invariant |deck| == 13 * s
        invariant forall i :: 0 <= i < |deck| ==> deck[i] == StandardDeck()[i]
      {
        for r := 0 to 13
          invariant |deck| == 13 * s + r
          invariant forall i :: 0 <= i < |deck| ==> deck[i] == StandardDeck()[i]
        {
          assert suits[s] == Suits.FromOrdinal(s) && ranks[r] == Ranks.FromOrdinal(r);
          deck := deck + [NewCard(ranks[r], suits[s])];
        }
      }
    }

    /** getDeck(): the stored list itself, the same on every call. */
    method GetDeck() returns (d: seq<Card>)
      ensures d == deck
    {
      d := deck;
    }
  }

  /** The layout: 52 face-down cards, position 13 * s + r holding the s-th suit and the r-th rank. */
  lemma StandardDeckLayout(s: nat, r: nat)
    requires s < 4 && r < 13
    ensures |StandardDeck()| == 52
    ensures StandardDeck()[13 * s + r] == Card(Ranks.FromOrdinal(r), Suits.FromOrdinal(s), false)
  {
    var i := 13 * s + r;
    assert i / 13 == s && i % 13 == r;
  }

  /** Each card sits at the position given by its deck order, so the deck is strictly sorted by (suit, rank). */
  lemma StandardDeckOrder(i: nat)
    requires i < 52
    ensures DeckOrder(StandardDeck()[i]) == i
    ensures !StandardDeck()[i].faceUp
  {
    var c := StandardDeck()[i];
    assert c.suit == Suits.FromOrdinal(i / 13) && c.rank == Ranks.FromOrdinal(i % 13);
  }

  /** Every (rank, suit) pair appears exactly once. */
  lemma StandardDeckHasEachCardOnce(id: CardId)
    ensures exists i :: 0 <= i < 52 && Id(StandardDeck()[i]) == id
    ensures forall i, j :: 0 <= i < 52 && 0 <= j < 52 && Id(StandardDeck()[i]) == id && Id(StandardDeck()[j]) == id ==> i == j
  {
    var i := 13 * Suits.Ordinal(id.suit) + Ranks.Ordinal(id.rank);
    StandardDeckOrder(i);
    DeckOrderIsLexicographic(StandardDeck()[i], Card(id.rank, id.suit, false));
    forall i, j | 0 <= i < 52 && 0 <= j < 52 && Id(StandardDeck()[i]) == id && Id(StandardDeck()[j]) == id
      ensures i == j
    {
      StandardDeckOrder(i);
      StandardDeckOrder(j);
      DeckOrderIsLexicographic(StandardDeck()[i], StandardDeck()[j]);
    }
  }
}
