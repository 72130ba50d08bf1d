/**
 * Legality checks of the newer revision (SolitaireRun CardMovementHandler.java).
 * A deque is a sequence whose head is index 0; peek reads the head and push
 * prepends, while the tableau columns are read at their tail by the game loop.
 */
module MovementRules {
  import opened Wrappers
  import opened Ranks
  import opened Suits
  import opened Cards

  /** IllegalArgumentException (null or empty deck) and IllegalStateException (fewer than 52 cards, or a null card). */
  datatype DeckError = NullOrEmptyDeck | TooFewCards | NullCard

  /** validateDeck(deck); None is a null deck. */
  function ValidateDeck(deck: Option<seq<Card>>): (r: Outcome<DeckError>)
    ensures r == Fail(NullOrEmptyDeck) <==> deck.None? || deck.value == []
    ensures r == Fail(TooFewCards) <==> deck.Some? && 0 < |deck.value| < 52
    ensures r == Pass <==> deck.Some? && |deck.value| >= 52
  {
    if deck.None? || deck.value == [] then Fail(NullOrEmptyDeck)
    else if |deck.value| < 52 then Fail(TooFewCards)
    else Pass
  }

  /** validateCardDistribution(card): throws only for a null card. */
  function ValidateCardDistribution(card: Option<Card>): (r: Outcome<DeckError>)
    ensures r.Pass? <==> card.Some?
    ensures r.Fail? ==> r.error == NullCard
  {
    if card.None? then Fail(NullCard) else Pass
  }

  /** The suit's pile would take the card: an Ace always, anything else on its predecessor. */
  predicate FoundationAccepts(card: Card, foundation: seq<seq<Card>>)
    requires |foundation| == 4
  {
    var pile := foundation[Suits.Ordinal(card.suit)];
    card.rank == Ace || (pile != [] && Ranks.Ordinal(pile[0].rank) + 1 == Ranks.Ordinal(card.rank))
  }

  /**
   * addToFoundation(card, foundation): the pile chosen is always number suit.ordinal();
   * on success the card is pushed onto that pile's head. The Java method changes the
   * list it is handed; here the changed list is returned beside the boolean.
   */
  function AddToFoundation(card: Card, foundation: seq<seq<Card>>): (r: (bool, seq<seq<Card>>))
    requires |foundation| == 4
    ensures |r.1| == 4
    ensures r.0 <==> FoundationAccepts(card, foundation)
    ensures r.0 ==> r.1[Suits.Ordinal(card.suit)] == [card] + foundation[Suits.Ordinal(card.suit)]
    ensures forall i :: 0 <= i < 4 && (i != Suits.Ordinal(card.suit) || !r.0) ==> r.1[i] == foundation[i]
  {
    var foundationIndex := Suits.Ordinal(card.suit);
    if card.rank == Ace then
      (true, foundation[foundationIndex := [card] + foundation[foundationIndex]])
    else if foundation[foundationIndex] != [] && Ranks.Ordinal(foundation[foundationIndex][0].rank) + 1 == Ranks.Ordinal(card.rank) then
      (true, foundation[foundationIndex := [card] + foundation[foundationIndex]])
    else
      (false, foundation)
  }

  /** Every pile i holds only cards of the suit with ordinal i. */
  predicate PilesBySuit(foundation: seq<seq<Card>>)
  {
    |foundation| == 4 &&
    forall i, k :: 0 <= i < 4 && 0 <= k < |foundation[i]| ==> Suits.Ordinal(foundation[i][k].suit) == i
  }

  /** addToFoundation keeps each pile to a single suit. */
  lemma AddToFoundationKeepsSuits(card: Card, foundation: seq<seq<Card>>)
    requires PilesBySuit(foundation)
    ensures PilesBySuit(AddToFoundation(card, foundation).1)
  {
    var r: seq<seq<Card>> := AddToFoundation(card, foundation).1;
    forall i, k | 0 <= i < 4 && 0 <= k < |r[i]|
      ensures Suits.Ordinal(r[i][k].suit) == i
    {
      if r[i] != foundation[i] {
        assert r[i] == [card] + foundation[i];
        if k > 0 {
          assert r[i][k] == foundation[i][k - 1];
        }
      }
    }
  }

  /**
   * A pile read from its bottom (the tail) is ACE, TWO, ... of one suit: the card at
   * index k, counting from the head, has rank ordinal |pile| - 1 - k.
   */
  predicate AscendingFromAce(pile: seq<Card>)
  {
    forall k :: 0 <= k < |pile| ==> pile[k].suit == pile[|pile| - 1].suit && Ranks.Ordinal(pile[k].rank) == |pile| - 1 - k
  }

  function PileIds(pile: seq<Card>): set<CardId>
  {
    set k | 0 <= k < |pile| :: Id(pile[k])
  }

  /**
   * With a unique deck, every foundation pile is an ascending same-suit run from its
   * Ace: a card that is not already on the foundations keeps that shape when accepted.
   * The precondition matters: the Ace test takes an Ace even onto a non-empty pile.
   */
  lemma AddToFoundationKeepsRuns(card: Card, foundation: seq<seq<Card>>)
    requires PilesBySuit(foundation)
    requires forall i :: 0 <= i < 4 ==> AscendingFromAce(foundation[i])
    requires forall i :: 0 <= i < 4 ==> Id(card) !in PileIds(foundation[i])
    ensures forall i :: 0 <= i < 4 ==> AscendingFromAce(AddToFoundation(card, foundation).1[i])
  {
    var (ok, r) := AddToFoundation(card, foundation);
    var s := Suits.Ordinal(card.suit);
    if ok {
      var pile := foundation[s];
      if pile != [] {
        var bottom := pile[|pile| - 1];
        assert Ranks.Ordinal(bottom.rank) == 0;
        if card.rank == Ace {
          assert false;
        }
        assert pile[0].suit == bottom.suit;
        Suits.OrdinalInjective(pile[0].suit, card.suit);
      }
      forall k | 0 <= k < |r[s]|
        ensures r[s][k].suit == r[s][|r[s]| - 1].suit && Ranks.Ordinal(r[s][k].rank) == |r[s]| - 1 - k
      {
        if k > 0 {
          assert r[s][k] == pile[k - 1];
        }
      }
    }
  }

  /** validateGameWon(foundation): every pile holds exactly 13 cards. */
  function ValidateGameWon(foundation: seq<seq<Card>>): (won: bool)
    ensures won <==> forall i :: 0 <= i < |foundation| ==> |foundation[i]| == 13
    decreases |foundation|
  {
    if foundation == [] then true
    else if |foundation[0]| != 13 then false
    else ValidateGameWon(foundation[1..])
  }

  /** validateEmptyTableauColumnMove(card): only a King goes into an empty column. */
  predicate ValidateEmptyTableauColumnMove(card: Card)
  {
    card.rank == King
  }

  /** The test validateTableauMove applies to one column, reading its head with peek(). */
  predicate AcceptsOnHead(column: seq<Card>, card: Card)
  {
    if column == [] then ValidateEmptyTableauColumnMove(card)
    else Ranks.Ordinal(column[0].rank) == Ranks.Ordinal(card.rank) + 1 && ColorOf(column[0].suit) != ColorOf(card.suit)
  }

  /** validateTableauMove(card, tableau): some column takes the card; no pile changes. */
  function ValidateTableauMove(card: Card, tableau: seq<seq<Card>>): (r: bool)
    ensures r <==> exists i :: 0 <= i < |tableau| && AcceptsOnHead(tableau[i], card)
    decreases |tableau|
  {
    if tableau == [] then false
    else if AcceptsOnHead(tableau[0], card) then true
    else
      var r := ValidateTableauMove(card, tableau[1..]);
      assert forall i :: 1 <= i < |tableau| ==> tableau[i] == tableau[1..][i - 1];
      r
  }

  /**
   * validateTalonMove(card, tableau, foundation): tries the changing addToFoundation
   * first (so a success pushes the card onto the foundation) and only then the tableau.
   */
  function ValidateTalonMove(card: Card, tableau: seq<seq<Card>>, foundation: seq<seq<Card>>): (r: (bool, seq<seq<Card>>))
    requires |foundation| == 4
    ensures r.0 <==> FoundationAccepts(card, foundation) || ValidateTableauMove(card, tableau)
    ensures FoundationAccepts(card, foundation) ==> r.1 == AddToFoundation(card, foundation).1 && r.1 != foundation
    ensures !FoundationAccepts(card, foundation) ==> r.1 == foundation
  {
    var (added, piles) := AddToFoundation(card, foundation);
    if added then
      assert |piles[Suits.Ordinal(card.suit)]| != |foundation[Suits.Ordinal(card.suit)]|;
      (true, piles)
    else (ValidateTableauMove(card, tableau), foundation)
  }

  // ---------------------------------------------------------------------------
  // getMovableSequence

  /** The comparison getMovableSequence applies between a card and the face-up card before it. */
  predicate ContinuesRun(previous: Card, card: Card)
  {
    Ranks.Ordinal(previous.rank) - 1 == Ranks.Ordinal(card.rank) && ColorOf(previous.suit) != ColorOf(card.suit)
  }

  /** The last face-up card of s, the "previousCard" after scanning s (face-down cards never update it). */
  function LastFaceUp(s: seq<Card>): (r: Option<Card>)
    ensures r.Some? ==> r.value in s && r.value.faceUp
    decreases |s|
  {
    if s == [] then None
    else if s[|s| - 1].faceUp then Some(s[|s| - 1])
    else LastFaceUp(s[..|s| - 1])
  }

  /** The card at index k is face-up and either has no face-up card before it or continues that card. */
  predicate Joins(column: seq<Card>, k: nat)
    requires k < |column|
  {
    column[k].faceUp &&
    var previous := LastFaceUp(column[..k]);
    previous.None? || ContinuesRun(previous.value, column[k])
  }

  /** The lowest index from which every card up to index end - 1 joins. */
  function RunStart(column: seq<Card>, end: nat): (start: nat)
    requires end <= |column|
    ensures start <= end
    ensures forall k :: start <= k < end ==> Joins(column, k)
    ensures start == 0 || !Joins(column, start - 1)
    decreases end
  {
    if end == 0 || !Joins(column, end - 1) then end else RunStart(column, end - 1)
  }

  /**
   * The run getMovableSequence returns: the longest tail of the column in which every
   * card joins. A card that fails to join clears the sequence and is not added, so a
   * face-down last card, or a face-up one that does not continue its face-up
   * predecessor, gives the empty run.
   */
  function MovableRun(column: seq<Card>): seq<Card>
  {
    column[RunStart(column, |column|)..]
  }

  /** The run is empty or a suffix ending at the last card; empty for an empty column or a face-down last card. */
  lemma MovableRunIsSuffix(column: seq<Card>)
    ensures |MovableRun(column)| <= |column|
    ensures MovableRun(column) == column[|column| - |MovableRun(column)|..]
    ensures column == [] || !column[|column| - 1].faceUp ==> MovableRun(column) == []
  {
    if column != [] && !column[|column| - 1].faceUp {
      assert !Joins(column, |column| - 1);
    }
  }

  /** Every card of the run is face-up, and each next card is one rank lower and of the other colour. */
  lemma MovableRunIsOrdered(column: seq<Card>)
    ensures forall k :: 0 <= k < |MovableRun(column)| ==> MovableRun(column)[k].faceUp
    ensures forall k :: 0 < k < |MovableRun(column)| ==> ContinuesRun(MovableRun(column)[k - 1], MovableRun(column)[k])
  {
    var start := RunStart(column, |column|);
    var run := MovableRun(column);
    forall k | 0 <= k < |run|
      ensures run[k].faceUp
    {
      assert Joins(column, start + k);
    }
    forall k | 0 < k < |run|
      ensures ContinuesRun(run[k - 1], run[k])
    {
      var i := start + k;
      assert Joins(column, i) && Joins(column, i - 1);
      assert column[..i][..i - 1] == column[..i - 1];
      assert LastFaceUp(column[..i]) == Some(column[i - 1]);
    }
  }

  /** Each next card of the run is one it could be placed on, in Card.canBePlacedOn's sense. */
  lemma MovableRunPlacesOnPrevious(column: seq<Card>, k: nat)
    requires 0 < k < |MovableRun(column)|
    ensures CanBePlacedOn(MovableRun(column)[k], MovableRun(column)[k - 1])
  {
    MovableRunIsOrdered(column);
  }

  /** After the deal a column (face-down cards, then one face-up card) has that face-up card as its run. */
  lemma MovableRunOfDealtColumn(column: seq<Card>)
    requires column != [] && column[|column| - 1].faceUp
    requires forall k :: 0 <= k < |column| - 1 ==> !column[k].faceUp
    ensures MovableRun(column) == [column[|column| - 1]]
  {
    var n := |column|;
    assert LastFaceUp(column[..n - 1]) == None by {
      NoFaceUp(column[..n - 1]);
    }
    assert Joins(column, n - 1);
    if n > 1 {
      assert !Joins(column, n - 2);
    }
  }

  lemma {:induction false} NoFaceUp(s: seq<Card>)
    requires forall k :: 0 <= k < |s| ==> !s[k].faceUp
    ensures LastFaceUp(s) == None
    decreases |s|
  {
    if s != [] {
      NoFaceUp(s[..|s| - 1]);
    }
  }

  /** getMovableSequence(column): the add/clear scan from the column's head to its tail. */
  method GetMovableSequence(column: seq<Card>) returns (sequence: seq<Card>)
    ensures sequence == MovableRun(column)
  {
    sequence := [];
    var previousCard: Option<Card> := None;
    for i := 0 to |column|
      invariant previousCard == LastFaceUp(column[..i])
      invariant sequence == column[RunStart(column, i)..i]
    {
      var card := column[i];
      assert column[..i + 1][..i] == column[..i];
      if !card.faceUp {
        assert !Joins(column, i) && RunStart(column, i + 1) == i + 1;
        sequence := [];
        continue;
      }
      assert LastFaceUp(column[..i + 1]) == Some(card);
      if previousCard.None? || ContinuesRun(previousCard.value, card) {
        assert Joins(column, i) && RunStart(column, i + 1) == RunStart(column, i);
        assert column[RunStart(column, i)..i + 1] == column[RunStart(column, i)..i] + [card];
        sequence := sequence + [card];
      } else {
        assert !Joins(column, i) && RunStart(column, i + 1) == i + 1;
        sequence := [];
      }
      previousCard := Some(card);
    }
  }
}
