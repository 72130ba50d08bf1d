/** A playing card (Card.java): a fixed rank and suit plus a face-up flag. */
module Cards {
  import opened Ranks
  import opened Suits

  /** The flag is the card's one mutable field; rank and suit are final. */
  datatype Card = Card(rank: Rank, suit: Suit, faceUp: bool)

  /**
   * What makes a card that card. The source never overrides equals, so a card is
   * identified by the object; in a deck of distinct cards that is its rank and suit.
   */
  datatype CardId = CardId(rank: Rank, suit: Suit)

  function Id(c: Card): CardId
  {
    CardId(c.rank, c.suit)
  }

  /** new Card(rank, suit): a card starts face-down. */
  function NewCard(rank: Rank, suit: Suit): (c: Card)
    ensures Id(c) == CardId(rank, suit) && !c.faceUp
  {
    Card(rank, suit, false)
  }

  /** setFaceUp(isFaceUp): only the flag changes; the card keeps its identity. */
  function SetFaceUp(c: Card, isFaceUp: bool): (r: Card)
    ensures Id(r) == Id(c) && r.faceUp == isFaceUp
  {
    c.(faceUp := isFaceUp)
  }

  /** getRankValue(rank): the static helper returns the rank's value. */
  function RankValue(rank: Rank): int
  {
    Value(rank)
  }

  /** isRed(). */
  predicate IsRed(c: Card)
  {
    c.suit == Hearts || c.suit == Diamonds
  }

  /** isBlack(). */
  predicate IsBlack(c: Card)
  {
    c.suit == Clubs || c.suit == Spades
  }

  /** card.canBePlacedOn(other): card is one rank lower by ordinal and of the other colour. */
  predicate CanBePlacedOn(card: Card, other: Card)
  {
    Ranks.Ordinal(card.rank) == Ranks.Ordinal(other.rank) - 1 && ColorOf(card.suit) != ColorOf(other.suit)
  }

  /** getRankValue agrees with the ordinal: ACE is 1 and KING is 13. */
  lemma RankValueIsOrdinalPlusOne(rank: Rank)
    ensures RankValue(rank) == Ranks.Ordinal(rank) + 1
  {
    ValueIsOrdinalPlusOne(rank);
  }

  /** Every card is exactly one of red and black, and the predicates agree with the suit colour. */
  lemma RedXorBlack(c: Card)
    ensures IsRed(c) != IsBlack(c)
    ensures IsRed(c) <==> ColorOf(c.suit) == Red
    ensures IsBlack(c) <==> ColorOf(c.suit) == Black
  {
    ColorBySuit(c.suit);
  }

  /** canBePlacedOn, restated with Rank.isOneRankLower and the red/black predicates. */
  lemma CanBePlacedOnMeaning(a: Card, b: Card)
    ensures CanBePlacedOn(a, b) <==> IsOneRankLower(a.rank, b.rank) && IsRed(a) != IsRed(b)
  {
    IsOneRankLowerByOrdinal(a.rank, b.rank);
    RedXorBlack(a);
    RedXorBlack(b);
  }

  /** No card can be placed on itself, nor on a card of the same rank. */
  lemma CanBePlacedOnIrreflexive(a: Card, b: Card)
    requires a.rank == b.rank
    ensures !CanBePlacedOn(a, b)
  {
  }

  /** If a can be placed on b, then b cannot be placed on a. */
  lemma CanBePlacedOnAsymmetric(a: Card, b: Card)
    requires CanBePlacedOn(a, b)
    ensures !CanBePlacedOn(b, a)
  {
  }

  /**
   * The position of a card in the standard order: suit ordinal first, rank ordinal
   * second. DeckInitializer builds the deck in this order and unShuffle sorts by it.
   */
  function DeckOrder(c: Card): (n: nat)
    ensures n < 52
  {
    13 * Suits.Ordinal(c.suit) + Ranks.Ordinal(c.rank)
  }

  /** Comparing DeckOrder is comparing (suit ordinal, rank ordinal) lexicographically, and it identifies the card. */
  lemma DeckOrderIsLexicographic(a: Card, b: Card)
    ensures DeckOrder(a) < DeckOrder(b) <==>
      Suits.Ordinal(a.suit) < Suits.Ordinal(b.suit) ||
      (a.suit == b.suit && Ranks.Ordinal(a.rank) < Ranks.Ordinal(b.rank))
    ensures DeckOrder(a) == DeckOrder(b) <==> Id(a) == Id(b)
  {
    if Suits.Ordinal(a.suit) == Suits.Ordinal(b.suit) {
      Suits.OrdinalInjective(a.suit, b.suit);
      if Ranks.Ordinal(a.rank) == Ranks.Ordinal(b.rank) {
        Ranks.OrdinalInjective(a.rank, b.rank);
      }
    }
  }

  /** The face-up flag plays no part in placement. */
  lemma CanBePlacedOnIgnoresFlag(a: Card, b: Card, up: bool)
    ensures CanBePlacedOn(SetFaceUp(a, up), b) == CanBePlacedOn(a, b)
    ensures CanBePlacedOn(a, SetFaceUp(b, up)) == CanBePlacedOn(a, b)
  {
  }
}
