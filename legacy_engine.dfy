/**
 * One cycle of the older autoPlayGame loop (solitaire/vo/GameState.java), as a function
 * on Board. Every move reads and writes the head of a pile (peek, pop, push), while the
 * deal appended each column's cards at the tail.
 */
module LegacyEngine {
  import opened Wrappers
  import opened Ranks
  import opened Suits
  import opened Cards
  import opened TurnModes
  import opened MovementRules
  import opened LegacyMovementRules
  import opened Boards
  import Engine

  // ---------------------------------------------------------------------------
  // addToFoundation of the older GameState

  /**
   * The for loop of addToFoundation from pile i: an Ace goes onto the first empty pile,
   * any other card onto the first pile whose head has its suit and a rank ordinal one
   * lower. The card lands on the pile validateAddToFoundation's scan would pick.
   */
  function PushFrom(card: Card, foundation: seq<seq<Card>>, i: nat): (r: (bool, seq<seq<Card>>))
    requires i <= |foundation|
    ensures |r.1| == |foundation|
    ensures r.0 <==> FirstTakingPile(card, foundation, i) >= 0
    ensures r.0 ==> r.1 == foundation[FirstTakingPile(card, foundation, i) := [card] + foundation[FirstTakingPile(card, foundation, i)]]
    ensures !r.0 ==> r.1 == foundation
    decreases |foundation| - i
  {
    if i == |foundation| then (false, foundation)
    else if foundation[i] == [] && card.rank == Ace then (true, foundation[i := [card] + foundation[i]])
    else if foundation[i] != [] && foundation[i][0].suit == card.suit &&
            Ranks.Ordinal(foundation[i][0].rank) + 1 == Ranks.Ordinal(card.rank) then
      RankValueIsOrdinalPlusOne(card.rank);
      RankValueIsOrdinalPlusOne(foundation[i][0].rank);
      (true, foundation[i := [card] + foundation[i]])
    else
      RankValueIsOrdinalPlusOne(card.rank);
      if foundation[i] != [] then
        RankValueIsOrdinalPlusOne(foundation[i][0].rank);
        PushFrom(card, foundation, i + 1)
      else PushFrom(card, foundation, i + 1)
  }

  /**
   * addToFoundation(card): false for a null card; otherwise it succeeds exactly when
   * validateAddToFoundation does, and then the card becomes the head of the pile
   * FoundationIndex names while every other pile stays as it was.
   */
  function AddToFoundation(card: Option<Card>, foundation: seq<seq<Card>>): (r: (bool, seq<seq<Card>>))
    ensures |r.1| == |foundation|
    ensures r.0 <==> card.Some? && ValidateAddToFoundation(card.value, foundation)
    ensures r.0 ==> var i := FoundationIndex(card.value, foundation);
                    0 <= i < |foundation| && r.1[i] == [card.value] + foundation[i] &&
                    forall j :: 0 <= j < |foundation| && j != i ==> r.1[j] == foundation[j]
    ensures !r.0 ==> r.1 == foundation
  {
    if card.None? then (false, foundation) else PushFrom(card.value, foundation, 0)
  }

  /** Every pile, read from its tail, is Ace, Two, ... of one suit. */
  predicate Runs(foundation: seq<seq<Card>>)
  {
    forall i :: 0 <= i < |foundation| ==> AscendingFromAce(foundation[i])
  }

  /**
   * The older addToFoundation keeps every pile an ascending same-suit run from an Ace,
   * whatever card it is given: an Ace only lands on an empty pile, and any other card
   * only on its own predecessor.
   */
  lemma AddToFoundationKeepsRuns(card: Option<Card>, foundation: seq<seq<Card>>)
    requires Runs(foundation)
    ensures Runs(AddToFoundation(card, foundation).1)
  {
    var (ok, r) := AddToFoundation(card, foundation);
    if ok {
      var c := card.value;
      var i := FoundationIndex(c, foundation);
      var pile := foundation[i];
      assert PileTakes(pile, c);
      RankValueIsOrdinalPlusOne(c.rank);
      if pile != [] {
        RankValueIsOrdinalPlusOne(pile[0].rank);
      }
      forall k | 0 <= k < |r[i]|
        ensures r[i][k].suit == r[i][|r[i]| - 1].suit && Ranks.Ordinal(r[i][k].rank) == |r[i]| - 1 - k
      {
        if k > 0 {
          assert r[i][k] == pile[k - 1];
        }
      }
      assert AscendingFromAce(r[i]);
    }
  }

  /** An Ace is never pushed onto a non-empty pile: on a run it can only start a new pile. */
  lemma AceOnlyOnEmptyPile(card: Card, foundation: seq<seq<Card>>)
    requires Runs(foundation) && card.rank == Ace && AddToFoundation(Some(card), foundation).0
    ensures foundation[FoundationIndex(card, foundation)] == []
  {
    var pile := foundation[FoundationIndex(card, foundation)];
    if pile != [] {
      assert PileTakes(pile, card);
      RankValueIsOrdinalPlusOne(pile[0].rank);
      assert false;
    }
  }

  // ---------------------------------------------------------------------------
  // Step A: a column's head to the foundation

  /** Column c has a face-up head that addToFoundation accepts. */
  predicate HeadToFoundationOk(tableau: seq<seq<Card>>, foundation: seq<seq<Card>>, c: nat)
    requires c < |tableau|
  {
    tableau[c] != [] && tableau[c][0].faceUp && ValidateAddToFoundation(tableau[c][0], foundation)
  }

  function FirstHeadToFoundation(tableau: seq<seq<Card>>, foundation: seq<seq<Card>>, c: nat): (r: nat)
    requires c <= |tableau|
    ensures c <= r <= |tableau|
    ensures r < |tableau| ==> HeadToFoundationOk(tableau, foundation, r)
    ensures forall j :: c <= j < r ==> !HeadToFoundationOk(tableau, foundation, j)
    decreases |tableau| - c
  {
    if c == |tableau| then c
    else if HeadToFoundationOk(tableau, foundation, c) then c
    else FirstHeadToFoundation(tableau, foundation, c + 1)
  }

  /** Step A: the first such column loses its head to the foundation; nothing is turned over. */
  function FoundationStep(b: Board): (r: (Board, bool))
    requires Shaped(b)
    ensures !r.1 ==> r.0 == b
    ensures r.0.moves == b.moves + (if r.1 then 1 else 0) && r.0.passesThroughTalon == b.passesThroughTalon
  {
    var c := FirstHeadToFoundation(b.tableau, b.foundation, 0);
    if c == |b.tableau| then (b, false)
    else
      var column := b.tableau[c];
      (b.(tableau := b.tableau[c := column[1..]],
          foundation := AddToFoundation(Some(column[0]), b.foundation).1,
          moves := b.moves + 1), true)
  }

  /** Pushing a card onto one pile adds exactly that card to the count of the piles. */
  lemma PushCount(piles: seq<seq<Card>>, i: nat, card: Card)
    requires i < |piles|
    ensures Count(piles[i := [card] + piles[i]]) == Count(piles) + multiset{Id(card)}
  {
    CountUpdate(piles, i, [card] + piles[i]);
    IdsAppend([card], piles[i]);
    var whole, pile := Count(piles), multiset(Ids(piles[i]));
    assert Count(piles[i := [card] + piles[i]]) + pile == (whole + multiset{Id(card)}) + pile;
    Cancel(Count(piles[i := [card] + piles[i]]), whole + multiset{Id(card)}, pile);
  }

  /** Popping the head of one pile removes exactly that card from the count of the piles. */
  lemma PopCount(piles: seq<seq<Card>>, i: nat)
    requires i < |piles| && piles[i] != []
    ensures Count(piles[i := piles[i][1..]]) + multiset{Id(piles[i][0])} == Count(piles)
  {
    var pile, kept := piles[i], piles[i][1..];
    var after := piles[i := kept];
    CountUpdate(piles, i, kept);
    HeadSplit(pile);
    var whole, rest, head := Count(piles), multiset(Ids(kept)), multiset{Id(pile[0])};
    assert Count(after) + (head + rest) == whole + rest;
    assert (Count(after) + head) + rest == whole + rest;
    Cancel(Count(after) + head, whole, rest);
  }

  /**
   * Step A moves a card exactly when some column has a face-up head that some pile
   * takes; no card is gained or lost, and the foundation stays made of runs.
   */
  lemma FoundationStepMeaning(b: Board)
    requires Shaped(b)
    ensures FoundationStep(b).1 <==> exists c :: 0 <= c < 7 && HeadToFoundationOk(b.tableau, b.foundation, c)
    ensures Shaped(FoundationStep(b).0) && CardsOn(FoundationStep(b).0) == CardsOn(b)
    ensures FoundationStep(b).0.talon == b.talon && FoundationStep(b).0.waste == b.waste
    ensures FoundationStep(b).0.passesThroughTalon == b.passesThroughTalon
    ensures FoundationStep(b).0.moves == b.moves + (if FoundationStep(b).1 then 1 else 0)
    ensures Runs(b.foundation) ==> Runs(FoundationStep(b).0.foundation)
  {
    var c := FirstHeadToFoundation(b.tableau, b.foundation, 0);
    if c < 7 {
      var card := b.tableau[c][0];
      var r := FoundationStep(b).0;
      PushCount(b.foundation, FoundationIndex(card, b.foundation), card);
      assert r.foundation == b.foundation[FoundationIndex(card, b.foundation) := [card] + b.foundation[FoundationIndex(card, b.foundation)]];
      PopCount(b.tableau, c);
      CardsOnParts(b);
      CardsOnParts(r);
      var T, F, rest := Count(r.tableau), Count(b.foundation), multiset(Ids(b.talon)) + multiset(Ids(b.waste));
      assert CardsOn(r) == T + (F + multiset{Id(card)}) + multiset(Ids(b.talon)) + multiset(Ids(b.waste));
      if Runs(b.foundation) {
        AddToFoundationKeepsRuns(Some(card), b.foundation);
      }
    }
  }

  /**
   * Step A moves only a head that validateTopCardMove allows (a non-empty column with a
   * face-up head) and that validateAddToFoundation accepts; that column loses exactly its head.
   */
  lemma FoundationStepTakesTopCard(b: Board)
    requires Shaped(b)
    ensures FoundationStep(b).1 <==>
              exists c :: 0 <= c < 7 && ValidateTopCardMove(b.tableau[c]) && ValidateAddToFoundation(b.tableau[c][0], b.foundation)
    ensures FoundationStep(b).1 ==>
              exists c :: 0 <= c < 7 && ValidateTopCardMove(b.tableau[c]) && FoundationStep(b).0.tableau[c] == b.tableau[c][1..]
  {
    FoundationStepMeaning(b);
    if exists c :: 0 <= c < 7 && ValidateTopCardMove(b.tableau[c]) && ValidateAddToFoundation(b.tableau[c][0], b.foundation) {
      var c :| 0 <= c < 7 && ValidateTopCardMove(b.tableau[c]) && ValidateAddToFoundation(b.tableau[c][0], b.foundation);
      assert HeadToFoundationOk(b.tableau, b.foundation, c);
    }
    if FoundationStep(b).1 {
      var c := FirstHeadToFoundation(b.tableau, b.foundation, 0);
      assert ValidateTopCardMove(b.tableau[c]) && FoundationStep(b).0.tableau[c] == b.tableau[c][1..];
    }
  }

  // ---------------------------------------------------------------------------
  // Step B: a column's head onto another column

  /** The head of column s may go onto column t: they differ and canMoveToTableau accepts it. */
  predicate HeadMoves(tableau: seq<seq<Card>>, s: nat, t: nat)
    requires s < |tableau| && t < |tableau| && tableau[s] != []
  {
    s != t && AcceptsOnHead(tableau[t], tableau[s][0])
  }

  function FirstHeadTarget(tableau: seq<seq<Card>>, s: nat, t: nat): (r: nat)
    requires s < |tableau| && t <= |tableau| && tableau[s] != []
    ensures t <= r <= |tableau|
    ensures r < |tableau| ==> HeadMoves(tableau, s, r)
    ensures forall j :: t <= j < r ==> !HeadMoves(tableau, s, j)
    decreases |tableau| - t
  {
    if t == |tableau| then t
    else if HeadMoves(tableau, s, t) then t
    else FirstHeadTarget(tableau, s, t + 1)
  }

  /** The first non-empty column at or after s whose head has a target; |tableau| when none. */
  function FirstHeadSource(tableau: seq<seq<Card>>, s: nat): (r: nat)
    requires s <= |tableau|
    ensures s <= r <= |tableau|
    ensures r < |tableau| ==> tableau[r] != [] && FirstHeadTarget(tableau, r, 0) < |tableau|
    ensures forall j :: s <= j < r && tableau[j] != [] ==> FirstHeadTarget(tableau, j, 0) == |tableau|
    decreases |tableau| - s
  {
    if s == |tableau| then s
    else if tableau[s] != [] && FirstHeadTarget(tableau, s, 0) < |tableau| then s
    else FirstHeadSource(tableau, s + 1)
  }

  /** The first non-empty column at or after s; |tableau| when none. */
  function FirstNonEmpty(tableau: seq<seq<Card>>, s: nat): (r: nat)
    requires s <= |tableau|
    ensures s <= r <= |tableau|
    ensures r < |tableau| ==> tableau[r] != []
    ensures forall j :: s <= j < r ==> tableau[j] == []
    decreases |tableau| - s
  {
    if s == |tableau| then s
    else if tableau[s] != [] then s
    else FirstNonEmpty(tableau, s + 1)
  }

  /** The source column step B tries: after a foundation move only the first non-empty one. */
  function HeadSource(tableau: seq<seq<Card>>, movedBefore: bool): (s: nat)
    ensures s <= |tableau|
    ensures s < |tableau| ==> tableau[s] != [] && FirstHeadTarget(tableau, s, 0) < |tableau|
  {
    if !movedBefore then FirstHeadSource(tableau, 0)
    else
      var s := FirstNonEmpty(tableau, 0);
      if s < |tableau| && FirstHeadTarget(tableau, s, 0) < |tableau| then s else |tableau|
  }

  /** The head of column s is popped and pushed, face-up, onto column t. */
  function MoveHead(tableau: seq<seq<Card>>, s: nat, t: nat): (r: seq<seq<Card>>)
    requires s < |tableau| && t < |tableau| && s != t && tableau[s] != []
    ensures |r| == |tableau|
    ensures r[s] == tableau[s][1..] && r[t] == [SetFaceUp(tableau[s][0], true)] + tableau[t]
    ensures forall c :: 0 <= c < |tableau| && c != s && c != t ==> r[c] == tableau[c]
  {
    tableau[s := tableau[s][1..]][t := [SetFaceUp(tableau[s][0], true)] + tableau[t]]
  }

  /**
   * Step B: one head card moves to the first column that takes it. Once step A has moved,
   * the loop breaks after the first non-empty source column whether or not it moved.
   */
  function ColumnStep(b: Board, movedBefore: bool): (r: (Board, bool))
    requires Shaped(b)
    ensures !r.1 ==> r.0 == b
    ensures r.0.moves == b.moves + (if r.1 then 1 else 0) && r.0.passesThroughTalon == b.passesThroughTalon
  {
    var s := HeadSource(b.tableau, movedBefore);
    if s == |b.tableau| then (b, false)
    else
      var t := FirstHeadTarget(b.tableau, s, 0);
      (b.(tableau := MoveHead(b.tableau, s, t), moves := b.moves + 1), true)
  }

  /**
   * A pair (s, t) with HeadMoves is the one step B picks when no earlier source qualifies
   * (after a step A move: when every earlier column is empty) and no earlier target takes
   * the head of s.
   */
  lemma FirstHeadMoveIsFound(tableau: seq<seq<Card>>, movedBefore: bool, s: nat, t: nat)
    requires s < |tableau| && t < |tableau| && tableau[s] != [] && HeadMoves(tableau, s, t)
    requires !movedBefore ==> forall j :: 0 <= j < s && tableau[j] != [] ==> FirstHeadTarget(tableau, j, 0) == |tableau|
    requires movedBefore ==> forall j :: 0 <= j < s ==> tableau[j] == []
    requires forall j :: 0 <= j < t ==> !HeadMoves(tableau, s, j)
    ensures HeadSource(tableau, movedBefore) == s && FirstHeadTarget(tableau, s, 0) == t
  {
    assert FirstHeadTarget(tableau, s, 0) == t;
    if movedBefore {
      assert FirstNonEmpty(tableau, 0) == s;
    }
  }

  /** Moving a head card keeps every card on the tableau. */
  lemma MoveHeadConserves(tableau: seq<seq<Card>>, s: nat, t: nat)
    requires s < |tableau| && t < |tableau| && s != t && tableau[s] != []
    ensures Count(MoveHead(tableau, s, t)) == Count(tableau)
  {
    var card := tableau[s][0];
    var between := tableau[s := tableau[s][1..]];
    assert MoveHead(tableau, s, t) == between[t := [SetFaceUp(card, true)] + between[t]];
    PopCount(tableau, s);
    PushCount(between, t, SetFaceUp(card, true));
    assert Id(SetFaceUp(card, true)) == Id(card);
  }

  /**
   * Step B moves a card exactly when the column it may try has a target (any column,
   * or only the first non-empty one after step A moved); no card is gained or lost.
   */
  lemma ColumnStepMeaning(b: Board, movedBefore: bool)
    requires Shaped(b)
    ensures !movedBefore ==> (ColumnStep(b, movedBefore).1 <==>
              exists s, t :: 0 <= s < 7 && 0 <= t < 7 && b.tableau[s] != [] && HeadMoves(b.tableau, s, t))
    ensures movedBefore ==> (ColumnStep(b, movedBefore).1 <==>
              var s := FirstNonEmpty(b.tableau, 0);
              s < 7 && exists t :: 0 <= t < 7 && HeadMoves(b.tableau, s, t))
    ensures Shaped(ColumnStep(b, movedBefore).0) && CardsOn(ColumnStep(b, movedBefore).0) == CardsOn(b)
    ensures ColumnStep(b, movedBefore).0.foundation == b.foundation
    ensures ColumnStep(b, movedBefore).0.talon == b.talon && ColumnStep(b, movedBefore).0.waste == b.waste
    ensures ColumnStep(b, movedBefore).0.passesThroughTalon == b.passesThroughTalon
    ensures ColumnStep(b, movedBefore).0.moves == b.moves + (if ColumnStep(b, movedBefore).1 then 1 else 0)
  {
    var T := b.tableau;
    var s := HeadSource(T, movedBefore);
    if s < 7 {
      MoveHeadConserves(T, s, FirstHeadTarget(T, s, 0));
      CardsOnParts(b);
      CardsOnParts(ColumnStep(b, movedBefore).0);
    }
    if !movedBefore && s == 7 {
      forall s', t' | 0 <= s' < 7 && 0 <= t' < 7 && T[s'] != []
        ensures !HeadMoves(T, s', t')
      {
        assert FirstHeadTarget(T, s', 0) == 7;
      }
    }
    if movedBefore {
      var first := FirstNonEmpty(T, 0);
      if first < 7 {
        var t := FirstHeadTarget(T, first, 0);
        if t < 7 {
          assert HeadMoves(T, first, t);
        } else {
          assert forall t' :: 0 <= t' < 7 ==> !HeadMoves(T, first, t');
        }
      }
    }
  }

  // ---------------------------------------------------------------------------
  // Step C: the talon's head to the foundation or the tableau

  function FirstTalonColumn(tableau: seq<seq<Card>>, card: Card, c: nat): (r: nat)
    requires c <= |tableau|
    ensures c <= r <= |tableau|
    ensures r < |tableau| ==> AcceptsOnHead(tableau[r], card)
    ensures forall j :: c <= j < r ==> !AcceptsOnHead(tableau[j], card)
    decreases |tableau| - c
  {
    if c == |tableau| then c
    else if AcceptsOnHead(tableau[c], card) then c
    else FirstTalonColumn(tableau, card, c + 1)
  }

  /**
   * Step C on a non-empty talon: its head goes to the foundation when addToFoundation
   * accepts it, otherwise face-up onto the head of the first column that takes it.
   */
  function TalonStep(b: Board): (r: (Board, bool))
    requires Shaped(b) && b.talon != []
    ensures !r.1 ==> r.0 == b
    ensures r.0.moves == b.moves + (if r.1 then 1 else 0) && r.0.passesThroughTalon == b.passesThroughTalon
  {
    var card := b.talon[0];
    var (added, piles) := AddToFoundation(Some(card), b.foundation);
    if added then (b.(foundation := piles, talon := b.talon[1..], moves := b.moves + 1), true)
    else
      var c := FirstTalonColumn(b.tableau, card, 0);
      if c == |b.tableau| then (b, false)
      else (b.(tableau := b.tableau[c := [SetFaceUp(card, true)] + b.tableau[c]], talon := b.talon[1..], moves := b.moves + 1), true)
  }

  /**
   * Step C moves the talon's head exactly when validateTalonMove would allow it, no card
   * is gained or lost, and the foundation stays made of runs.
   */
  lemma TalonStepMeaning(b: Board)
    requires Shaped(b) && b.talon != []
    ensures TalonStep(b).1 <==> LegacyMovementRules.ValidateTalonMove(b.talon[0], b.tableau, b.foundation)
    ensures Shaped(TalonStep(b).0) && CardsOn(TalonStep(b).0) == CardsOn(b)
    ensures TalonStep(b).0.waste == b.waste && TalonStep(b).0.passesThroughTalon == b.passesThroughTalon
    ensures TalonStep(b).0.moves == b.moves + (if TalonStep(b).1 then 1 else 0)
    ensures Runs(b.foundation) ==> Runs(TalonStep(b).0.foundation)
  {
    var card := b.talon[0];
    if AddToFoundation(Some(card), b.foundation).0 {
      TalonToFoundationConserves(b);
      if Runs(b.foundation) {
        AddToFoundationKeepsRuns(Some(card), b.foundation);
      }
    } else {
      var c := FirstTalonColumn(b.tableau, card, 0);
      if c < 7 {
        TalonToColumnConserves(b, c);
      } else {
        assert !MovementRules.ValidateTableauMove(card, b.tableau);
      }
    }
  }

  /** A pile is its head followed by the rest. */
  lemma HeadSplit(s: seq<Card>)
    requires s != []
    ensures multiset(Ids(s)) == multiset{Id(s[0])} + multiset(Ids(s[1..]))
  {
    assert s == [s[0]] + s[1..];
    IdsAppend([s[0]], s[1..]);
    assert Ids([s[0]]) == [Id(s[0])];
  }

  lemma TalonToFoundationConserves(b: Board)
    requires Shaped(b) && b.talon != [] && AddToFoundation(Some(b.talon[0]), b.foundation).0
    ensures CardsOn(b.(foundation := AddToFoundation(Some(b.talon[0]), b.foundation).1, talon := b.talon[1..], moves := b.moves + 1)) == CardsOn(b)
  {
    var card := b.talon[0];
    var r := b.(foundation := AddToFoundation(Some(card), b.foundation).1, talon := b.talon[1..], moves := b.moves + 1);
    var i := FoundationIndex(card, b.foundation);
    assert r.foundation == b.foundation[i := [card] + b.foundation[i]];
    PushCount(b.foundation, i, card);
    CardsOnParts(b);
    CardsOnParts(r);
    HeadSplit(b.talon);
    var T, F, rest, W := Count(b.tableau), Count(b.foundation), multiset(Ids(r.talon)), multiset(Ids(b.waste));
    assert CardsOn(r) == T + (F + multiset{Id(card)}) + rest + W;
    assert CardsOn(b) == T + F + (multiset{Id(card)} + rest) + W;
  }

  lemma TalonToColumnConserves(b: Board, c: nat)
    requires Shaped(b) && b.talon != [] && c < 7
    ensures CardsOn(b.(tableau := b.tableau[c := [SetFaceUp(b.talon[0], true)] + b.tableau[c]], talon := b.talon[1..], moves := b.moves + 1)) == CardsOn(b)
  {
    var card := b.talon[0];
    var r := b.(tableau := b.tableau[c := [SetFaceUp(card, true)] + b.tableau[c]], talon := b.talon[1..], moves := b.moves + 1);
    PushCount(b.tableau, c, SetFaceUp(card, true));
    CardsOnParts(b);
    CardsOnParts(r);
    HeadSplit(b.talon);
    var T, F, rest, W := Count(b.tableau), Count(b.foundation), multiset(Ids(r.talon)), multiset(Ids(b.waste));
    assert CardsOn(r) == (T + multiset{Id(card)}) + F + rest + W;
    assert CardsOn(b) == T + F + (multiset{Id(card)} + rest) + W;
  }

  // ---------------------------------------------------------------------------
  // One cycle

  /**
   * One pass of the older while loop: step A, step B (which runs even after step A moved),
   * step C only if nothing moved, the deal-or-redeal tail, the win check and the stop
   * test "!updated". The older loop has no hasValidMoves.
   */
  function Cycle(b: Board, mode: Option<TurnMode>): (r: (Board, Engine.CycleEnd))
    requires Shaped(b)
    ensures Shaped(r.0) && CardsOn(r.0) == CardsOn(b) && r.0.moves >= b.moves
    ensures r.0.passesThroughTalon == b.passesThroughTalon ||
            (r.0.passesThroughTalon == b.passesThroughTalon + 1 && b.passesThroughTalon < 2)
    ensures r.1 == Engine.Won <==> ValidateGameWon(r.0.foundation) && r.1 != Engine.TurnModeUnset
    ensures r.1 == Engine.NoMoves <==> r.1 != Engine.TurnModeUnset && !ValidateGameWon(r.0.foundation) && r.0 == b
    ensures Runs(b.foundation) ==> Runs(r.0.foundation)
  {
    var (b1, movedA) := FoundationStep(b);
    FoundationStepMeaning(b);
    var (b2, movedB) := ColumnStep(b1, movedA);
    ColumnStepMeaning(b1, movedA);
    var moved := movedA || movedB;
    var (b3, movedC) := TalonStepIfStill(b2, moved);
    match DealOrRedeal(b3, mode, moved || movedC)
    case None => (b3, Engine.TurnModeUnset)
    case Some((b4, dealt)) =>
      var updated := moved || movedC || dealt;
      if ValidateGameWon(b4.foundation) then (b4, Engine.Won)
      else if !updated then (b4, Engine.NoMoves)
      else (b4, Engine.Continue)
  }

  /** Step C guarded as in the loop: only when nothing has moved yet and the talon has cards. */
  function TalonStepIfStill(b: Board, moved: bool): (r: (Board, bool))
    requires Shaped(b)
    ensures Shaped(r.0) && CardsOn(r.0) == CardsOn(b) && r.0.moves == b.moves + (if r.1 then 1 else 0)
    ensures r.0.waste == b.waste && r.0.passesThroughTalon == b.passesThroughTalon
    ensures moved || b.talon == [] ==> r == (b, false)
    ensures !r.1 ==> r.0 == b
    ensures Runs(b.foundation) ==> Runs(r.0.foundation)
  {
    if !moved && b.talon != [] then
      TalonStepMeaning(b);
      TalonStep(b)
    else (b, false)
  }

  /**
   * The older while loop, for at most fuel passes: the loop test. With no pass left the
   * bound is reached; otherwise Pass runs the loop body. PlayKeeps states what a whole
   * game keeps.
   */
  function Play(b: Board, mode: Option<TurnMode>, fuel: nat): (r: (Board, Engine.GameResult))
    requires Shaped(b)
    decreases fuel, 1
  {
    if fuel == 0 then (b, Engine.CycleLimitReached) else Pass(b, mode, fuel)
  }

  /**
   * The older loop body with fuel passes allowed: one Cycle; the loop goes round again
   * on Continue, and any other end of the pass decides the result.
   */
  function Pass(b: Board, mode: Option<TurnMode>, fuel: nat): (r: (Board, Engine.GameResult))
    requires Shaped(b) && fuel > 0
    decreases fuel, 0
  {
    var (b1, end) := Cycle(b, mode);
    if end == Engine.Continue then Play(b1, mode, fuel - 1) else (b1, Engine.Reported(end))
  }

  /**
   * Play's result under another name. The lemmas about runs of passes below speak of
   * Outcome, so that a pass is unfolded only where one of them asks for it.
   */
  ghost function Outcome(b: Board, mode: Option<TurnMode>, fuel: nat): (Board, Engine.GameResult)
    requires Shaped(b)
  {
    Play(b, mode, fuel)
  }

  /** A pass that goes on leaves the rest of the game to the board it made, with one pass fewer. */
  lemma PassGoesOn(b: Board, mode: Option<TurnMode>, fuel: nat, b1: Board)
    requires Shaped(b) && fuel > 0 && Cycle(b, mode) == (b1, Engine.Continue)
    ensures Shaped(b1) && Outcome(b, mode, fuel) == Outcome(b1, mode, fuel - 1)
  {
    assert Play(b, mode, fuel) == Play(b1, mode, fuel - 1);
  }

  /** A pass that ends otherwise ends the game with the board it made and the result it reports. */
  lemma PassEnds(b: Board, mode: Option<TurnMode>, fuel: nat, b1: Board, end: Engine.CycleEnd)
    requires Shaped(b) && fuel > 0 && Cycle(b, mode) == (b1, end) && end != Engine.Continue
    ensures Outcome(b, mode, fuel) == (b1, Engine.Reported(end))
  {
    assert Play(b, mode, fuel) == (b1, Engine.Reported(end));
  }

  /** With no pass left the game stops where it is, at the bound. */
  lemma NoPassLeft(b: Board, mode: Option<TurnMode>)
    requires Shaped(b)
    ensures Outcome(b, mode, 0) == (b, Engine.CycleLimitReached)
  {
    assert Play(b, mode, 0) == (b, Engine.CycleLimitReached);
  }

  /**
   * What a stretch of the older loop keeps from board b to board r: no card is created
   * or lost, the move counter never decreases, the talon is redealt at most twice, and
   * the foundation runs are kept.
   */
  ghost predicate Kept(b: Board, r: Board)
  {
    Shaped(r) && CardsOn(r) == CardsOn(b) && r.moves >= b.moves &&
    r.passesThroughTalon <= (if b.passesThroughTalon <= 2 then 2 else b.passesThroughTalon) &&
    (Runs(b.foundation) ==> Runs(r.foundation))
  }

  /** A pass that ends the game keeps what Cycle keeps. */
  lemma PassEndsKept(b: Board, mode: Option<TurnMode>, fuel: nat)
    requires Shaped(b) && fuel > 0 && Cycle(b, mode).1 != Engine.Continue
    ensures Kept(b, Outcome(b, mode, fuel).0)
  {
    assert Play(b, mode, fuel) == (Cycle(b, mode).0, Engine.Reported(Cycle(b, mode).1));
  }

  /** A pass that goes on, followed by a rest of the game that keeps it all, keeps it all. */
  lemma PassGoesOnKept(b: Board, mode: Option<TurnMode>, fuel: nat, b1: Board)
    requires Shaped(b) && fuel > 0 && Cycle(b, mode) == (b1, Engine.Continue)
    requires Shaped(b1) && Kept(b1, Outcome(b1, mode, fuel - 1).0)
    ensures Kept(b, Outcome(b, mode, fuel).0)
  {
    assert Play(b, mode, fuel) == Play(b1, mode, fuel - 1);
  }

  /** A whole game of the older loop keeps it all, by induction on the passes left. */
  lemma {:induction false} OutcomeKept(b: Board, mode: Option<TurnMode>, fuel: nat)
    requires Shaped(b)
    ensures Kept(b, Outcome(b, mode, fuel).0)
    decreases fuel
  {
    if fuel == 0 {
      NoPassLeft(b, mode);
    } else {
      var (b1, end) := Cycle(b, mode);
      if end != Engine.Continue {
        PassEndsKept(b, mode, fuel);
      } else {
        OutcomeKept(b1, mode, fuel - 1);
        PassGoesOnKept(b, mode, fuel, b1);
      }
    }
  }

  /**
   * Over a whole game of the older loop no card is created or lost, the move counter
   * never decreases, the talon is redealt at most twice, and the foundation runs are
   * kept. PlayReportsWin adds how the result is reported.
   */
  lemma PlayKeeps(b: Board, mode: Option<TurnMode>, fuel: nat)
    requires Shaped(b)
    ensures var r := Play(b, mode, fuel);
            Shaped(r.0) && CardsOn(r.0) == CardsOn(b) && r.0.moves >= b.moves &&
            r.0.passesThroughTalon <= (if b.passesThroughTalon <= 2 then 2 else b.passesThroughTalon) &&
            (Runs(b.foundation) ==> Runs(r.0.foundation))
  {
    OutcomeKept(b, mode, fuel);
  }

  /**
   * A result that reports a win exactly when every pile holds 13 cards, unless it
   * reports that the turn mode was unset.
   */
  ghost predicate WinReported(r: (Board, Engine.GameResult))
  {
    r.1 != Engine.ModeNotSet ==> (r.1 == Engine.GameWon <==> ValidateGameWon(r.0.foundation))
  }

  /** A pass that ends the game reports a win exactly when Cycle found one. */
  lemma PassEndsReports(b: Board, mode: Option<TurnMode>, fuel: nat)
    requires Shaped(b) && fuel > 0 && Cycle(b, mode).1 != Engine.Continue
    ensures WinReported(Outcome(b, mode, fuel))
  {
    assert Play(b, mode, fuel) == (Cycle(b, mode).0, Engine.Reported(Cycle(b, mode).1));
  }

  /**
   * A pass that goes on has not won, so the game reports well whether the bound stops
   * it next or the rest of the game reports well.
   */
  lemma PassGoesOnReports(b: Board, mode: Option<TurnMode>, fuel: nat, b1: Board)
    requires Shaped(b) && fuel > 0 && Cycle(b, mode) == (b1, Engine.Continue)
    requires Shaped(b1) && (fuel > 1 ==> WinReported(Outcome(b1, mode, fuel - 1)))
    ensures WinReported(Outcome(b, mode, fuel))
  {
    assert Play(b, mode, fuel) == Play(b1, mode, fuel - 1);
    if fuel == 1 {
      assert Play(b1, mode, 0) == (b1, Engine.CycleLimitReached);
    }
  }

  /** So a game of one pass or more reports well, by induction on the passes left. */
  lemma {:induction false} OutcomeReports(b: Board, mode: Option<TurnMode>, fuel: nat)
    requires Shaped(b)
    ensures fuel > 0 ==> WinReported(Outcome(b, mode, fuel))
    decreases fuel
  {
    if fuel > 0 {
      var (b1, end) := Cycle(b, mode);
      if end != Engine.Continue {
        PassEndsReports(b, mode, fuel);
      } else {
        OutcomeReports(b1, mode, fuel - 1);
        PassGoesOnReports(b, mode, fuel, b1);
      }
    }
  }

  /**
   * A game of the older loop that ran at least one pass and found the turn mode set
   * reports a win exactly when every pile holds 13 cards.
   */
  lemma PlayReportsWin(b: Board, mode: Option<TurnMode>, fuel: nat)
    requires Shaped(b)
    ensures var r := Play(b, mode, fuel);
            fuel > 0 && r.1 != Engine.ModeNotSet ==> (r.1 == Engine.GameWon <==> ValidateGameWon(r.0.foundation))
  {
    OutcomeReports(b, mode, fuel);
  }

  /**
   * Boards t[0], t[1], ... met between passes of one game of the older loop of at most
   * fuel passes: each has the same outcome as the one before, with one pass fewer left.
   */
  ghost predicate Chain(t: seq<Board>, mode: Option<TurnMode>, fuel: nat)
    decreases |t|
  {
    |t| >= 1 && |t| - 1 <= fuel && Shaped(t[0]) &&
    (|t| == 1 ||
     (Shaped(t[1]) && Outcome(t[0], mode, fuel) == Outcome(t[1], mode, fuel - 1) &&
      Chain(t[1..], mode, fuel - 1)))
  }

  /** The first and the last board of a chain have the same outcome. */
  lemma {:induction false} ChainOutcome(t: seq<Board>, mode: Option<TurnMode>, fuel: nat, left: nat, last: Board)
    requires Chain(t, mode, fuel) && left == fuel - (|t| - 1) && t[|t| - 1] == last
    ensures Shaped(last)
    ensures Outcome(t[0], mode, fuel) == Outcome(last, mode, left)
    decreases |t|
  {
    if |t| > 1 {
      var rest := t[1..];
      assert rest[0] == t[1] && rest[|rest| - 1] == last;
      ChainOutcome(rest, mode, fuel - 1, left, last);
    }
  }

  /** A chain grows by a board with the same outcome as its last one, one pass later. */
  lemma {:induction false} ChainExtend(t: seq<Board>, mode: Option<TurnMode>, fuel: nat, left: nat, last: Board, b: Board)
    requires Chain(t, mode, fuel) && left == fuel - (|t| - 1) && left > 0 && t[|t| - 1] == last
    requires Shaped(last) && Shaped(b) && Outcome(last, mode, left) == Outcome(b, mode, left - 1)
    ensures Chain(t + [b], mode, fuel)
    decreases |t|
  {
    if |t| > 1 {
      var rest := t[1..];
      assert rest[|rest| - 1] == last;
      ChainExtend(rest, mode, fuel - 1, left, last, b);
      assert (t + [b])[1..] == rest + [b];
    }
  }

  // ---------------------------------------------------------------------------
  // The lone King

  /** A King alone in column 0, every other pile empty, after k moves. */
  function LoneKing(k: int): Board
  {
    Board([[Card(King, Spades, true)], [], [], [], [], [], []], [[], [], [], []], [], [], k, 0)
  }

  /** The same King alone in column 1, one move later. */
  function KingMoved(k: int): Board
  {
    Board([[], [Card(King, Spades, true)], [], [], [], [], []], [[], [], [], []], [], [], k + 1, 0)
  }

  /** Neither board lets step A move: a King is no Ace and the piles are empty. */
  lemma LoneKingNoFoundationMove(k: int)
    ensures FoundationStep(LoneKing(k)) == (LoneKing(k), false)
    ensures FoundationStep(KingMoved(k)) == (KingMoved(k), false)
  {
    var king := Card(King, Spades, true);
    assert !ValidateAddToFoundation(king, LoneKing(k).foundation);
    assert FirstHeadToFoundation(LoneKing(k).tableau, LoneKing(k).foundation, 0) == 7;
    assert !HeadToFoundationOk(KingMoved(k).tableau, KingMoved(k).foundation, 1);
    assert FirstHeadToFoundation(KingMoved(k).tableau, KingMoved(k).foundation, 0) == 7;
  }

  /** Step B moves the King to the other empty column, one way and then back. */
  lemma LoneKingColumnMoves(k: int)
    ensures ColumnStep(LoneKing(k), false) == (KingMoved(k), true)
    ensures ColumnStep(KingMoved(k), false) == (LoneKing(k + 2), true)
  {
    var king := Card(King, Spades, true);
    assert SetFaceUp(king, true) == king;
    var T, U := LoneKing(k).tableau, KingMoved(k).tableau;
    assert HeadMoves(T, 0, 1);
    assert FirstHeadTarget(T, 0, 0) == 1;
    assert HeadSource(T, false) == 0;
    assert MoveHead(T, 0, 1) == U by {
      var r := MoveHead(T, 0, 1);
      assert T[0][1..] == [];
      assert forall c :: 0 <= c < 7 ==> r[c] == U[c];
    }
    assert HeadMoves(U, 1, 0);
    assert FirstHeadTarget(U, 1, 0) == 0;
    assert HeadSource(U, false) == 1;
    assert MoveHead(U, 1, 0) == T by {
      var r := MoveHead(U, 1, 0);
      assert U[1][1..] == [];
      assert forall c :: 0 <= c < 7 ==> r[c] == T[c];
    }
  }

  /** The first cycle moves the King from column 0 to the empty column 1 and goes on. */
  lemma LoneKingFirstCycle(mode: Option<TurnMode>, k: int)
    ensures Cycle(LoneKing(k), mode) == (KingMoved(k), Engine.Continue)
  {
    LoneKingNoFoundationMove(k);
    LoneKingColumnMoves(k);
    assert TalonStepIfStill(KingMoved(k), true) == (KingMoved(k), false);
    assert DealOrRedeal(KingMoved(k), mode, true) == Some((KingMoved(k), false));
  }

  /** The second cycle moves it back, since the older loop has no rule against it. */
  lemma LoneKingSecondCycle(mode: Option<TurnMode>, k: int)
    ensures Cycle(KingMoved(k), mode) == (LoneKing(k + 2), Engine.Continue)
  {
    var after := LoneKing(k + 2);
    LoneKingNoFoundationMove(k);
    LoneKingColumnMoves(k);
    assert TalonStepIfStill(after, true) == (after, false);
    assert DealOrRedeal(after, mode, true) == Some((after, false));
  }

  /**
   * Two cycles take the lone-King board back to itself with two more moves, both
   * reporting an update.
   */
  lemma LoneKingOscillates(mode: Option<TurnMode>, k: int)
    ensures var first := Cycle(LoneKing(k), mode);
            var second := Cycle(first.0, mode);
            first.1 == Engine.Continue && second.1 == Engine.Continue &&
            second.0 == LoneKing(k + 2)
  {
    LoneKingFirstCycle(mode, k);
    LoneKingSecondCycle(mode, k);
  }

  /** From the lone King, one pass of the loop leaves the King in column 1 with one pass less. */
  lemma LoneKingPlayStep(mode: Option<TurnMode>, k: int, fuel: nat)
    requires fuel > 0
    ensures Outcome(LoneKing(k), mode, fuel) == Outcome(KingMoved(k), mode, fuel - 1)
  {
    LoneKingFirstCycle(mode, k);
    PassGoesOn(LoneKing(k), mode, fuel, KingMoved(k));
  }

  /** From the King in column 1, one pass takes it back to column 0 with one pass less. */
  lemma KingMovedPlayStep(mode: Option<TurnMode>, k: int, fuel: nat)
    requires fuel > 0
    ensures Outcome(KingMoved(k), mode, fuel) == Outcome(LoneKing(k + 2), mode, fuel - 1)
  {
    LoneKingSecondCycle(mode, k);
    PassGoesOn(KingMoved(k), mode, fuel, LoneKing(k + 2));
  }

  /** Two passes of the loop bring the game back to the lone King, two moves later. */
  lemma LoneKingTwoSteps(mode: Option<TurnMode>, k: int, fuel: nat)
    requires fuel > 1
    ensures Outcome(LoneKing(k), mode, fuel) == Outcome(LoneKing(k + 2), mode, fuel - 2)
  {
    LoneKingPlayStep(mode, k, fuel);
    KingMovedPlayStep(mode, k, fuel - 1);
  }

  /**
   * So the older loop never stops on a lone King beside an empty column: however many
   * passes it is given, it uses them all up and never reports a result of its own
   * (stated of Outcome; LoneKingNeverStops says it of Play).
   */
  lemma {:induction false} LoneKingRunsOut(mode: Option<TurnMode>, k: int, fuel: nat)
    ensures Outcome(LoneKing(k), mode, fuel).1 == Engine.CycleLimitReached
    decreases fuel
  {
    if fuel == 0 {
      NoPassLeft(LoneKing(k), mode);
    } else if fuel == 1 {
      LoneKingPlayStep(mode, k, 1);
      NoPassLeft(KingMoved(k), mode);
    } else {
      LoneKingTwoSteps(mode, k, fuel);
      LoneKingRunsOut(mode, k + 2, fuel - 2);
    }
  }

  /** The same about Play itself. */
  lemma LoneKingNeverStops(mode: Option<TurnMode>, k: int, fuel: nat)
    ensures Play(LoneKing(k), mode, fuel).1 == Engine.CycleLimitReached
  {
    LoneKingRunsOut(mode, k, fuel);
  }
}
