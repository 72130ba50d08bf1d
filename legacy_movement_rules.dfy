/**
 * Legality checks of the older revision (solitaire/logic/CardMovementHandler.java).
 * validateDeck, validateCardDistribution, validateGameWon, validateEmptyTableauColumnMove
 * and validateTableauMove are the same code as in the newer revision and are taken
 * from MovementRules. Deques are sequences whose head is index 0.
 */
module LegacyMovementRules {
  import opened Ranks
  import opened Suits
  import opened Cards
  import MovementRules

  // ---------------------------------------------------------------------------
  // Foundation checks

  /**
   * The test the older revision applies to one foundation pile: an empty pile takes
   * an Ace; otherwise the head (peek) must have the card's suit and be one rank lower.
   */
  predicate PileTakes(pile: seq<Card>, card: Card)
  {
    if pile == [] then card.rank == Ace
    else pile[0].suit == card.suit && RankValue(card.rank) == RankValue(pile[0].rank) + 1
  }

  /** The index of the first pile at or after from that takes the card (PileTakes), or -1 when there is none. */
  function FirstTakingPile(card: Card, piles: seq<seq<Card>>, from: nat): (r: int)
    requires from <= |piles|
    ensures r == -1 || from <= r < |piles|
    ensures r >= 0 ==> PileTakes(piles[r], card) && forall j :: from <= j < r ==> !PileTakes(piles[j], card)
    ensures r == -1 <==> forall j :: from <= j < |piles| ==> !PileTakes(piles[j], card)
    decreases |piles| - from
  {
    if from == |piles| then -1
    else if PileTakes(piles[from], card) then from
    else FirstTakingPile(card, piles, from + 1)
  }

  /** validateAddToFoundation(card, foundation): some pile would take the card; nothing is changed. */
  function ValidateAddToFoundation(card: Card, foundation: seq<seq<Card>>): (r: bool)
    ensures r <==> exists i :: 0 <= i < |foundation| && PileTakes(foundation[i], card)
  {
    FirstTakingPile(card, foundation, 0) >= 0
  }

  /** validateTalonMove(card, tableau, foundation): the foundation check first, then the tableau; nothing is changed. */
  function ValidateTalonMove(card: Card, tableau: seq<seq<Card>>, foundation: seq<seq<Card>>): (r: bool)
    ensures r <==> ((exists i :: 0 <= i < |foundation| && PileTakes(foundation[i], card)) ||
                    (exists i :: 0 <= i < |tableau| && MovementRules.AcceptsOnHead(tableau[i], card)))
  {
    ValidateAddToFoundation(card, foundation) || MovementRules.ValidateTableauMove(card, tableau)
  }

  // ---------------------------------------------------------------------------
  // Tableau checks

  /** isAlternatingColor(card1, card2): exactly one of the two is a Heart or a Diamond. */
  function IsAlternatingColor(card1: Card, card2: Card): (r: bool)
    ensures r <==> ColorOf(card1.suit) != ColorOf(card2.suit)
  {
    var card1Red := card1.suit == Hearts || card1.suit == Diamonds;
    var card2Red := card2.suit == Hearts || card2.suit == Diamonds;
    card1Red != card2Red
  }

  /** validateTopCardMove(column): the column has a head and it is face-up. */
  predicate ValidateTopCardMove(column: seq<Card>)
  {
    |column| > 0 && column[0].faceUp
  }

  /** validateTableauToTableauMove(card, destination): ordinals and isAlternatingColor against the head. */
  predicate ValidateTableauToTableauMove(cardToMove: Card, destinationColumn: seq<Card>)
  {
    if destinationColumn == [] then cardToMove.rank == King
    else
      Ranks.Ordinal(destinationColumn[0].rank) == Ranks.Ordinal(cardToMove.rank) + 1 &&
      IsAlternatingColor(destinationColumn[0], cardToMove)
  }

  /** canMoveToTableau(talonCard, column): rank values and colours against the head. */
  predicate CanMoveToTableau(talonCard: Card, tableauColumn: seq<Card>)
  {
    if tableauColumn == [] then talonCard.rank == King
    else
      Ranks.Value(talonCard.rank) == Ranks.Value(tableauColumn[0].rank) - 1 &&
      ColorOf(talonCard.suit) != ColorOf(tableauColumn[0].suit)
  }

  /**
   * The three tableau tests of the older code (validateTableauToTableauMove, canMoveToTableau,
   * and the per-column test inside validateTableauMove) accept exactly the same moves.
   */
  lemma TableauChecksAgree(card: Card, column: seq<Card>)
    ensures ValidateTableauToTableauMove(card, column) <==> CanMoveToTableau(card, column)
    ensures CanMoveToTableau(card, column) <==> MovementRules.AcceptsOnHead(column, card)
  {
    if column != [] {
      Ranks.ValueIsOrdinalPlusOne(card.rank);
      Ranks.ValueIsOrdinalPlusOne(column[0].rank);
    }
  }

  // ---------------------------------------------------------------------------
  // getFoundationIndex

  /** The test getFoundationIndex applies to one pile: it reads the pile's tail with peekLast. */
  predicate TakesOnTail(pile: seq<Card>, card: Card)
  {
    (pile == [] && card.rank == Ace) ||
    (pile != [] && pile[|pile| - 1].suit == card.suit && Ranks.Ordinal(card.rank) == Ranks.Ordinal(pile[|pile| - 1].rank) + 1)
  }

  /** The for loop of getFoundationIndex from index i: the lowest pile at or after i whose tail takes the card, or -1. */
  function FirstTailTakingPile(card: Card, piles: seq<seq<Card>>, i: nat): (r: int)
    requires i <= |piles|
    ensures r == -1 || i <= r < |piles|
    ensures r >= 0 ==> TakesOnTail(piles[r], card) && forall j :: i <= j < r ==> !TakesOnTail(piles[j], card)
    ensures r == -1 <==> forall j :: i <= j < |piles| ==> !TakesOnTail(piles[j], card)
    decreases |piles| - i
  {
    if i == |piles| then -1
    else if TakesOnTail(piles[i], card) then i
    else FirstTailTakingPile(card, piles, i + 1)
  }

  /** getFoundationIndex(card, foundation) as written: the lowest pile whose tail takes the card, or -1. */
  function GetFoundationIndex(card: Card, foundation: seq<seq<Card>>): (r: int)
    ensures -1 <= r < |foundation|
    ensures r >= 0 ==> TakesOnTail(foundation[r], card) && forall j :: 0 <= j < r ==> !TakesOnTail(foundation[j], card)
    ensures r == -1 <==> forall j :: 0 <= j < |foundation| ==> !TakesOnTail(foundation[j], card)
  {
    FirstTailTakingPile(card, foundation, 0)
  }

  /**
   * The index the foundation checks of the older revision actually use: the lowest
   * pile whose head takes the card, or -1. This is what getFoundationIndex evidently means.
   */
  function FoundationIndex(card: Card, foundation: seq<seq<Card>>): (r: int)
    ensures -1 <= r < |foundation|
    ensures r >= 0 ==> PileTakes(foundation[r], card) && forall j :: 0 <= j < r ==> !PileTakes(foundation[j], card)
    ensures r >= 0 <==> ValidateAddToFoundation(card, foundation)
  {
    FirstTakingPile(card, foundation, 0)
  }

  /** On piles of at most one card the head is the tail, so both indexes agree. */
  lemma IndexesAgreeOnShortPiles(card: Card, foundation: seq<seq<Card>>)
    requires forall i :: 0 <= i < |foundation| ==> |foundation[i]| <= 1
    ensures GetFoundationIndex(card, foundation) == FoundationIndex(card, foundation)
  {
    forall i | 0 <= i < |foundation|
      ensures TakesOnTail(foundation[i], card) <==> PileTakes(foundation[i], card)
    {
      if foundation[i] != [] {
        Ranks.ValueIsOrdinalPlusOne(card.rank);
        Ranks.ValueIsOrdinalPlusOne(foundation[i][0].rank);
      }
    }
  }

  /**
   * getFoundationIndex reads the bottom of the pile: after the Two of Hearts has been
   * pushed onto the Ace of Hearts, the Three of Hearts belongs on pile 0, yet
   * getFoundationIndex reports that no pile takes it.
   */
  lemma GetFoundationIndexMissesGrownPile()
    ensures var foundation := [[Card(Two, Hearts, true), Card(Ace, Hearts, true)], [], [], []];
      var three := Card(Three, Hearts, true);
      GetFoundationIndex(three, foundation) == -1 && FoundationIndex(three, foundation) == 0
  {
    var foundation := [[Card(Two, Hearts, true), Card(Ace, Hearts, true)], [], [], []];
    var three := Card(Three, Hearts, true);
    assert PileTakes(foundation[0], three);
    assert forall j :: 0 <= j < 4 ==> !TakesOnTail(foundation[j], three);
  }

  // ---------------------------------------------------------------------------
  // shuffleTalon

  /**
   * shuffleTalon(talon): Collections.shuffle swaps position i - 1 with a random position
   * below i, for i from the size down to 2. The random draws are the parameter draws:
   * draws[p] is the position swapped with p. The talon keeps exactly its cards; with
   * every draw equal to its own position nothing moves.
   */
  method ShuffleTalon(talon: seq<Card>, draws: seq<nat>) returns (shuffled: seq<Card>)
    requires |draws| == |talon|
    requires forall p :: 0 <= p < |draws| ==> draws[p] <= p
    ensures |shuffled| == |talon|
    ensures multiset(shuffled) == multiset(talon)
    ensures (forall p :: 0 <= p < |draws| ==> draws[p] == p) ==> shuffled == talon
  {
    var tempList := talon;
    var i := |tempList|;
    while i > 1
      invariant 0 <= i <= |talon| || (i == 0 && |talon| == 0)
      invariant |tempList| == |talon|
      invariant multiset(tempList) == multiset(talon)
      invariant (forall p :: 0 <= p < |draws| ==> draws[p] == p) ==> tempList == talon
    {
      var j := draws[i - 1];
      var a, b := tempList[i - 1], tempList[j];
      tempList := tempList[i - 1 := b][j := a];
      i := i - 1;
    }
    shuffled := tempList;
  }
}
