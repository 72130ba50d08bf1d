/** The four suits (Suit.java), each with a symbol and a colour. */
module Suits {

  /** Declared in this order; the ordinal indexes a foundation pile and is the first sort key. */
  datatype Suit = Hearts | Diamonds | Clubs | Spades

  /** The colour attribute. The source stores it as the string "RED" or "BLACK". */
  datatype Color = Red | Black

  /** Java's ordinal(): 0 for HEARTS up to 3 for SPADES. */
  function Ordinal(s: Suit): (n: nat)
    ensures n < 4
  {
    match s
    case Hearts => 0
    case Diamonds => 1
    case Clubs => 2
    case Spades => 3
  }

  /** getColor(). */
  function ColorOf(s: Suit): Color
  {
    match s
    case Hearts => Red
    case Diamonds => Red
    case Clubs => Black
    case Spades => Black
  }

  /** getSymbol(). */
  function Symbol(s: Suit): string
  {
    match s
    case Hearts => "\U{2665}"
    case Diamonds => "\U{2666}"
    case Clubs => "\U{2663}"
    case Spades => "\U{2660}"
  }

  /** Suit.values()[i]. */
  function FromOrdinal(i: nat): (s: Suit)
    requires i < 4
    ensures Ordinal(s) == i
  {
    [Hearts, Diamonds, Clubs, Spades][i]
  }

  /** HEARTS and DIAMONDS are red, CLUBS and SPADES are black: exactly two suits of each colour. */
  lemma ColorBySuit(s: Suit)
    ensures ColorOf(s) == Red <==> s in {Hearts, Diamonds}
    ensures ColorOf(s) == Black <==> s in {Clubs, Spades}
  {
    match s
    case Hearts =>
    case Diamonds =>
    case Clubs =>
    case Spades =>
  }

  /** FromOrdinal inverts Ordinal, so the ordinal identifies the suit (and its foundation pile). */
  lemma OrdinalRoundTrip(s: Suit)
    ensures FromOrdinal(Ordinal(s)) == s
  {
    match s
    case Hearts =>
    case Diamonds =>
    case Clubs =>
    case Spades =>
  }

  /** Two suits with the same ordinal are the same suit. */
  lemma OrdinalInjective(a: Suit, b: Suit)
    requires Ordinal(a) == Ordinal(b)
    ensures a == b
  {
    OrdinalRoundTrip(a);
    OrdinalRoundTrip(b);
  }

  /** The four symbols are pairwise distinct. */
  lemma SymbolsDistinct(a: Suit, b: Suit)
    requires a != b
    ensures Symbol(a) != Symbol(b)
  {
    match a
    case Hearts =>
    case Diamonds =>
    case Clubs =>
    case Spades =>
  }
}
