/** The thirteen card ranks (Rank.java), each with a symbol and a numeric value. */
module Ranks {

  /** Declared in this order; Java's ordinal() is the position in the declaration. */
  datatype Rank = Ace | Two | Three | Four | Five | Six | Seven | Eight | Nine | Ten | Jack | Queen | King

  /** Java's ordinal(): 0 for ACE up to 12 for KING. */
  function Ordinal(r: Rank): (n: nat)
    ensures n < 13
  {
    match r
    case Ace => 0
    case Two => 1
    case Three => 2
    case Four => 3
    case Five => 4
    case Six => 5
    case Seven => 6
    case Eight => 7
    case Nine => 8
    case Ten => 9
    case Jack => 10
    case Queen => 11
    case King => 12
  }

  /** getValue(): the number each constant is declared with. */
  function Value(r: Rank): int
  {
    match r
    case Ace => 1
    case Two => 2
    case Three => 3
    case Four => 4
    case Five => 5
    case Six => 6
    case Seven => 7
    case Eight => 8
    case Nine => 9
    case Ten => 10
    case Jack => 11
    case Queen => 12
    case King => 13
  }

  /** getSymbol(): the text a rank is shown with. */
  function Symbol(r: Rank): string
  {
    match r
    case Ace => "A"
    case Two => "2"
    case Three => "3"
    case Four => "4"
    case Five => "5"
    case Six => "6"
    case Seven => "7"
    case Eight => "8"
    case Nine => "9"
    case Ten => "10"
    case Jack => "J"
    case Queen => "Q"
    case King => "K"
  }

  /** Rank.values()[i]: the constant declared at position i. */
  function FromOrdinal(i: nat): (r: Rank)
    requires i < 13
    ensures Ordinal(r) == i
  {
    [Ace, Two, Three, Four, Five, Six, Seven, Eight, Nine, Ten, Jack, Queen, King][i]
  }

  /** isOneRankLower(rank1, rank2): rank1's value is one less than rank2's. */
  predicate IsOneRankLower(rank1: Rank, rank2: Rank)
  {
    Value(rank1) == Value(rank2) - 1
  }

  /** The declared values are 1..13 in declaration order, so value = ordinal + 1. */
  lemma ValueIsOrdinalPlusOne(r: Rank)
    ensures Value(r) == Ordinal(r) + 1
    ensures 1 <= Value(r) <= 13
  {
    match r
    case Ace =>
    case Two =>
    case Three =>
    case Four =>
    case Five =>
    case Six =>
    case Seven =>
    case Eight =>
    case Nine =>
    case Ten =>
    case Jack =>
    case Queen =>
    case King =>
  }

  /** A rank is determined by its ordinal, and FromOrdinal inverts Ordinal. */
  lemma OrdinalRoundTrip(r: Rank)
    ensures FromOrdinal(Ordinal(r)) == r
  {
    match r
    case Ace =>
    case Two =>
    case Three =>
    case Four =>
    case Five =>
    case Six =>
    case Seven =>
    case Eight =>
    case Nine =>
    case Ten =>
    case Jack =>
    case Queen =>
    case King =>
  }

  /** Two ranks with the same ordinal are the same rank. */
  lemma OrdinalInjective(a: Rank, b: Rank)
    requires Ordinal(a) == Ordinal(b)
    ensures a == b
  {
    OrdinalRoundTrip(a);
    OrdinalRoundTrip(b);
  }

  /** The value comparison of isOneRankLower agrees with the ordinal comparison used elsewhere. */
  lemma IsOneRankLowerByOrdinal(rank1: Rank, rank2: Rank)
    ensures IsOneRankLower(rank1, rank2) <==> Ordinal(rank1) + 1 == Ordinal(rank2)
  {
    ValueIsOrdinalPlusOne(rank1);
    ValueIsOrdinalPlusOne(rank2);
  }

  /** Nothing is one rank lower than ACE, and KING is one rank lower than nothing. */
  lemma NoRankBelowAceOrAboveKing(x: Rank)
    ensures !IsOneRankLower(x, Ace)
    ensures !IsOneRankLower(King, x)
  {
    ValueIsOrdinalPlusOne(x);
  }

  /** The thirteen symbols are pairwise distinct. */
  lemma SymbolsDistinct(a: Rank, b: Rank)
    requires a != b
    ensures Symbol(a) != Symbol(b)
  {
    match a
    case Ace =>
    case Two =>
    case Three =>
    case Four =>
    case Five =>
    case Six =>
    case Seven =>
    case Eight =>
    case Nine =>
    case Ten =>
    case Jack =>
    case Queen =>
    case King =>
  }
}
