/**
 * The GameState object of both revisions: the piles and counters are fields that the
 * methods update in place, and each method is proved to leave the board that the
 * matching specification function (Boards, Engine, LegacyEngine) computes.
 * Methods of the older revision's GameState carry the prefix Legacy.
 */
module Game {
  import opened Wrappers
  import opened Ranks
  import opened Suits
  import opened Cards
  import opened TurnModes
  import opened MovementRules
  import opened Boards
  import Engine
  import LegacyEngine
  import LegacyMovementRules

  class GameState {
    var tableau: seq<seq<Card>>
    var foundation: seq<seq<Card>>
    var talon: seq<Card>
    var waste: seq<Card>
    var moves: int
    var passesThroughTalon: int
    const turnModeHandler: TurnModeHandler

    /** Seven columns and four piles. */
    predicate Valid()
      reads this
    {
      |tableau| == 7 && |foundation| == 4
    }

    /** The fields as a Board value. */
    function Snapshot(): (b: Board)
      reads this
      ensures Valid() ==> Shaped(b)
    {
      Board(tableau, foundation, talon, waste, moves, passesThroughTalon)
    }

    /** new GameState(): a fresh, unset turn-mode handler and a reset board. */
    constructor ()
      ensures Valid() && Snapshot() == ResetBoard()
      ensures fresh(turnModeHandler) && turnModeHandler.turnMode.None?
    {
      turnModeHandler := new TurnModeHandler();
      moves := 0;
      passesThroughTalon := 0;
      new;
      ResetGameState();
    }

    /** setTurnMode(turnMode): forwarded to the handler; the board is untouched. */
    method SetTurnMode(mode: int) returns (r: Outcome<TurnModeError>)
      modifies turnModeHandler
      ensures (turnModeHandler.turnMode, r) == SetTurnModeEffect(old(turnModeHandler.turnMode), mode)
    {
      r := turnModeHandler.SetTurnMode(mode);
    }

    /** resetGameState(): fresh empty piles and zero counters; the turn mode is kept. */
    method ResetGameState()
      modifies this
      ensures Valid() && Snapshot() == ResetBoard()
    {
      var columns: seq<seq<Card>> := [];
      for columnIndex := 0 to 7
        invariant |columns| == columnIndex && forall c :: 0 <= c < columnIndex ==> columns[c] == []
      {
        columns := columns + [[]];
      }
      var piles: seq<seq<Card>> := [];
      for pileIndex := 0 to 4
        invariant |piles| == pileIndex && forall i :: 0 <= i < pileIndex ==> piles[i] == []
      {
        piles := piles + [[]];
      }
      tableau, foundation := columns, piles;
      talon, waste := [], [];
      moves, passesThroughTalon := 0, 0;
    }

    /**
     * distributeCards(shuffledDeck): the deck is validated before anything changes
     * (None is a null deck). Column i then receives the next i + 1 cards, appended,
     * only the last face-up, and the rest of the deck is appended to the talon.
     */
    method DistributeCards(shuffledDeck: Option<seq<Card>>) returns (r: Outcome<DeckError>)
      requires Valid()
      modifies this
      ensures Valid()
      ensures r == ValidateDeck(shuffledDeck)
      ensures r.Fail? ==> Snapshot() == old(Snapshot())
      ensures r.Pass? ==> Snapshot() == Distribute(old(Snapshot()), shuffledDeck.value)
    {
      r := ValidateDeck(shuffledDeck);
      if r.Fail? {
        return;
      }
      var full := shuffledDeck.value;
      var deck := full;
      var columns := tableau;
      for i := 0 to 7
        invariant unchanged(this)
        invariant |columns| == 7
        invariant deck == full[ColumnStart(i)..]
        invariant forall c :: 0 <= c < i ==> columns[c] == tableau[c] + DealtColumn(full, c)
        invariant forall c :: i <= c < 7 ==> columns[c] == tableau[c]
      {
        var column := columns[i];
        for j := 0 to i + 1
          invariant unchanged(this)
          invariant deck == full[ColumnStart(i) + j..]
          invariant column == tableau[i] + DealtColumn(full, i)[..j]
        {
          var card := Some(deck[0]);
          deck := deck[1..];
          var distributed := ValidateCardDistribution(card);
          assert distributed.Pass?;
          var placed := SetFaceUp(card.value, j == i);
          assert DealtColumn(full, i)[..j + 1] == DealtColumn(full, i)[..j] + [placed];
          column := column + [placed];
        }
        assert DealtColumn(full, i)[..i + 1] == DealtColumn(full, i);
        columns := columns[i := column];
      }
      assert ColumnStart(7) == 28;
      ghost var spec := Distribute(Snapshot(), full);
      assert forall c :: 0 <= c < 7 ==> spec.tableau[c] == tableau[c] + DealtColumns(full)[c];
      assert columns == spec.tableau;
      tableau := columns;
      talon := talon + deck;
    }

    /**
     * The deal-and-redeal part of one cycle: when nothing moved and the talon has cards,
     * getTurnMode() is asked (None is the IllegalStateException of an unset mode) and
     * one or up to three cards go from the talon head to the waste head; then, when
     * nothing moved, the talon is empty and fewer than two passes were made, redealTalon.
     * The result says whether this changed the board.
     */
    method DealOrRedealTalon(moved: bool) returns (r: Option<bool>)
      requires Valid()
      modifies this
      ensures Valid()
      ensures var spec := DealOrRedeal(old(Snapshot()), turnModeHandler.turnMode, moved);
              (r.None? <==> spec.None?) &&
              (spec.None? ==> Snapshot() == old(Snapshot())) &&
              (spec.Some? ==> Snapshot() == spec.value.0 && r == Some(spec.value.1))
    {
      var updated := false;
      if !moved && talon != [] {
        var mode := turnModeHandler.GetTurnMode();
        if mode.Failure? {
          return None;
        }
        DealCards(mode.value);
        updated := true;
      }
      if !moved && talon == [] && waste != [] && passesThroughTalon < 2 {
        RedealTalon();
        updated := true;
      }
      r := Some(updated);
    }

    /** The deal of one cycle: TURN_1 pops one talon card onto the waste, TURN_3 up to three. */
    method DealCards(mode: TurnMode)
      requires talon != []
      modifies this
      ensures Snapshot() == DealToWaste(old(Snapshot()), DealCount(mode, |old(talon)|))
    {
      ghost var spec := DealToWaste(Snapshot(), DealCount(mode, |talon|));
      if mode == Turn1 {
        var talonCard := talon[0];
        assert talon[..1] == [talonCard] && Reverse([talonCard]) == [talonCard];
        talon, waste, moves := talon[1..], [talonCard] + waste, moves + 1;
      } else {
        var stock, pile, cardCount := talon, waste, 0;
        while cardCount < 3 && stock != []
          invariant unchanged(this)
          invariant cardCount <= 3 && cardCount <= |talon|
          invariant stock == talon[cardCount..] && pile == Reverse(talon[..cardCount]) + waste
        {
          var talonCard := stock[0];
          ReversePrefixStep(talon, cardCount);
          assert talon[cardCount..][1..] == talon[cardCount + 1..];
          stock := stock[1..];
          pile := [talonCard] + pile;
          cardCount := cardCount + 1;
        }
        assert cardCount == DealCount(mode, |talon|);
        assert spec.talon == stock && spec.waste == pile && spec.moves == moves + cardCount;
        talon, waste, moves := stock, pile, moves + cardCount;
      }
      assert Snapshot() == spec;
    }

    /** redealTalon(): pops every waste head onto the talon head and counts one more pass. */
    method RedealTalon()
      modifies this
      ensures Snapshot() == Redeal(old(Snapshot()))
    {
      if waste != [] {
        var stock, pile, k := talon, waste, 0;
        while pile != []
          invariant unchanged(this)
          invariant k <= |waste| && pile == waste[k..] && stock == Reverse(waste[..k]) + talon
          decreases |pile|
        {
          ReversePrefixStep(waste, k);
          assert waste[k..][1..] == waste[k + 1..];
          stock := [pile[0]] + stock;
          pile := pile[1..];
          k := k + 1;
        }
        assert k == |waste| && waste[..k] == waste;
        assert stock == Reverse(waste) + talon && pile == [];
        ghost var b := Snapshot();
        talon, waste := stock, pile;
        passesThroughTalon := passesThroughTalon + 1;
        assert Snapshot() == b.(talon := Reverse(b.waste) + b.talon, waste := [], passesThroughTalon := b.passesThroughTalon + 1);
      }
    }

    // -------------------------------------------------------------------------
    // The newer autoPlayGame, one step at a time

    /**
     * The search of step 1: source columns in index order, and for the first whose
     * movable run has a target, targets in index order. A King heading a run that
     * starts at the column's first index is skipped, as are a target equal to the
     * source, a non-empty target that does not take the run and an empty target
     * for a run that is not headed by a King.
     */
    method FindRunMove() returns (s: nat, t: nat)
      requires Valid()
      ensures s == Engine.FirstRunSource(tableau, 0)
      ensures s < 7 ==> t == Engine.FirstRunTarget(tableau, s, 0)
    {
      s, t := 0, 7;
      while s < 7
        invariant s <= 7
        invariant forall j :: 0 <= j < s ==> Engine.FirstRunTarget(tableau, j, 0) == 7
        decreases 7 - s
      {
        var sourceColumn := tableau[s];
        if sourceColumn != [] {
          var movableSequence := GetMovableSequence(sourceColumn);
          if movableSequence != [] {
            t := 0;
            while t < 7
              invariant t <= 7
              invariant forall j :: 0 <= j < t ==> !Engine.RunMoves(tableau, s, j)
              decreases 7 - t
            {
              var targetColumn := tableau[t];
              var topCard := movableSequence[0];
              var kingAtBottom := topCard.rank == King && |movableSequence| == |sourceColumn|;
              assert kingAtBottom <==> topCard.rank == King && RunStart(sourceColumn, |sourceColumn|) == 0;
              if s != t && !kingAtBottom {
                if targetColumn == [] && topCard.rank == King {
                  Engine.FirstRunMoveIsFound(tableau, s, t);
                  return;
                } else if targetColumn != [] {
                  var targetTopCard := Last(targetColumn);
                  if Ranks.Ordinal(targetTopCard.rank) == Ranks.Ordinal(topCard.rank) + 1 &&
                     ColorOf(targetTopCard.suit) != ColorOf(topCard.suit) {
                    Engine.FirstRunMoveIsFound(tableau, s, t);
                    return;
                  }
                }
              }
              t := t + 1;
            }
          }
        }
        assert forall j :: 0 <= j < 7 ==> !Engine.RunMoves(tableau, s, j);
        s := s + 1;
      }
    }

    /**
     * Step 1 (autoPlayGame, newer): the run found by FindRunMove leaves its column card
     * by card, each removal taking the card at the run's start, and each card is appended
     * to the target; the source's new last card is turned face-up and one move is counted.
     */
    method MoveSequence() returns (moved: bool)
      requires Valid()
      modifies this
      ensures Valid()
      ensures (Snapshot(), moved) == Engine.RunStep(old(Snapshot()))
    {
      var s, t := FindRunMove();
      if s == 7 {
        return false;
      }
      var movableSequence := GetMovableSequence(tableau[s]);
      var source, target := TransferRun(tableau[s], movableSequence, tableau[t]);
      tableau := tableau[s := source][t := target];
      moves := moves + 1;
      moved := true;
    }

    /**
     * The transfer loop of step 1: each card of the run, in order, is removed from the
     * source at the run's start and appended to the target; then the source's new last
     * card is turned face-up.
     */
    static method TransferRun(sourceColumn: seq<Card>, movableSequence: seq<Card>, targetColumn: seq<Card>)
      returns (source: seq<Card>, target: seq<Card>)
      requires movableSequence == MovableRun(sourceColumn)
      ensures source == FlipLastUp(sourceColumn[..RunStart(sourceColumn, |sourceColumn|)])
      ensures target == targetColumn + MovableRun(sourceColumn)
    {
      var start := |sourceColumn| - |movableSequence|;
      source, target := sourceColumn, targetColumn;
      for k := 0 to |movableSequence|
        invariant source == sourceColumn[..start] + movableSequence[k..]
        invariant target == targetColumn + movableSequence[..k]
      {
        assert movableSequence[k..][1..] == movableSequence[k + 1..];
        assert movableSequence[..k + 1] == movableSequence[..k] + [movableSequence[k]];
        source := source[..start] + source[start + 1..];
        target := target + [movableSequence[k]];
      }
      assert source == sourceColumn[..start];
      assert movableSequence[..|movableSequence|] == movableSequence;
      source := FlipLastUp(source);
    }

    /**
     * Step 2 (autoPlayGame, newer): the first column with a face-up last card that
     * addToFoundation accepts gives it up (pollLast), and its new last card is turned up.
     */
    method MoveToFoundation() returns (moved: bool)
      requires Valid()
      modifies this
      ensures Valid()
      ensures (Snapshot(), moved) == Engine.FoundationStep(old(Snapshot()))
    {
      for c := 0 to 7
        invariant unchanged(this)
        invariant forall j :: 0 <= j < c ==> !Engine.ToFoundationOk(tableau, foundation, j)
      {
        var column := tableau[c];
        if column != [] {
          var topCard := Last(column);
          if topCard.faceUp {
            var (added, piles) := AddToFoundation(topCard, foundation);
            if added {
              assert Engine.ToFoundationOk(tableau, foundation, c);
              assert Engine.FirstFoundationColumn(tableau, foundation, 0) == c;
              foundation := piles;
              tableau := tableau[c := FlipLastUp(column[..|column| - 1])];
              moves := moves + 1;
              return true;
            }
          }
        }
      }
      return false;
    }

    /**
     * Step 3 (autoPlayGame, newer) on a non-empty talon: the talon's last card goes to the
     * foundation if addToFoundation accepts it, otherwise face-up to the end of the first
     * column that is empty (King only) or whose last card is one rank higher in the other colour.
     */
    method MoveFromTalon() returns (moved: bool)
      requires Valid() && talon != []
      modifies this
      ensures Valid()
      ensures (Snapshot(), moved) == Engine.TalonStep(old(Snapshot()))
    {
      var topCard := Last(talon);
      var (added, piles) := AddToFoundation(topCard, foundation);
      if added {
        foundation := piles;
        talon := talon[..|talon| - 1];
        moves := moves + 1;
        return true;
      }
      for c := 0 to 7
        invariant unchanged(this)
        invariant forall j :: 0 <= j < c ==> !Engine.TalonColumnOk(tableau[j], topCard)
      {
        var column := tableau[c];
        if (column == [] && topCard.rank == King) ||
           (column != [] && Ranks.Ordinal(Last(column).rank) == Ranks.Ordinal(topCard.rank) + 1 &&
            ColorOf(Last(column).suit) != ColorOf(topCard.suit)) {
          assert Engine.FirstTalonColumn(tableau, topCard, 0) == c;
          tableau := tableau[c := column + [SetFaceUp(topCard, true)]];
          talon := talon[..|talon| - 1];
          moves := moves + 1;
          return true;
        }
      }
      return false;
    }

    /**
     * hasValidMoves, with the foundation check asked without pushing the card: some
     * column shows a face-up last card, or the talon's last card has a place to go.
     */
    method HasValidMoves() returns (r: bool)
      requires Valid()
      ensures r == Engine.HasValidMoves(Snapshot())
    {
      for c := 0 to 7
        invariant forall j :: 0 <= j < c ==> !(tableau[j] != [] && Last(tableau[j]).faceUp)
      {
        if tableau[c] != [] && Last(tableau[c]).faceUp {
          return true;
        }
      }
      if talon != [] {
        var topCard := Last(talon);
        if FoundationAccepts(topCard, foundation) {
          return true;
        }
        for c := 0 to 7
          invariant forall j :: 0 <= j < c ==> !Engine.TalonColumnOk(tableau[j], topCard)
        {
          var column := tableau[c];
          if column == [] && topCard.rank == King {
            return true;
          } else if column != [] && Ranks.Ordinal(Last(column).rank) == Ranks.Ordinal(topCard.rank) + 1 &&
                    ColorOf(Last(column).suit) != ColorOf(topCard.suit) {
            return true;
          }
        }
      }
      return false;
    }

    /**
     * One pass of the newer autoPlayGame loop: step 1, step 2 (even after step 1 moved),
     * step 3 only when nothing moved, deal or redeal, the win check, and the stop test
     * "!updated || !hasValidMoves()".
     */
    method PlayCycle() returns (end: Engine.CycleEnd)
      requires Valid()
      modifies this
      ensures Valid()
      ensures (Snapshot(), end) == Engine.Cycle(old(Snapshot()), turnModeHandler.turnMode)
    {
      var moved := MoveSequence();
      var movedToFoundation := MoveToFoundation();
      moved := moved || movedToFoundation;
      if !moved && talon != [] {
        moved := MoveFromTalon();
      }
      var dealt := DealOrRedealTalon(moved);
      if dealt.None? {
        return Engine.TurnModeUnset;
      }
      var updated := moved || dealt.value;
      if ValidateGameWon(foundation) {
        return Engine.Won;
      }
      if !updated {
        return Engine.NoMoves;
      }
      var valid := HasValidMoves();
      end := if valid then Engine.Continue else Engine.NoMoves;
    }

    /**
     * autoPlayGame (newer), for at most maxCycles passes of its loop. It reports a win
     * exactly when every foundation pile holds 13 cards; no card is created or lost,
     * the move counter never decreases, the talon is redealt at most twice, and
     * face-up column tails and single-suit foundation piles are kept.
     */
    method AutoPlayGame(maxCycles: nat) returns (result: Engine.GameResult)
      requires Valid()
      modifies this
      ensures Valid()
      ensures CardsOn(Snapshot()) == CardsOn(old(Snapshot())) && moves >= old(moves)
      ensures passesThroughTalon <= if old(passesThroughTalon) <= 2 then 2 else old(passesThroughTalon)
      ensures maxCycles > 0 && result != Engine.ModeNotSet ==> (result == Engine.GameWon <==> ValidateGameWon(foundation))
      ensures Engine.FaceUpTails(old(tableau)) ==> Engine.FaceUpTails(tableau)
      ensures PilesBySuit(old(foundation)) ==> PilesBySuit(foundation)
      ensures (Snapshot(), result) == Engine.Play(old(Snapshot()), turnModeHandler.turnMode, maxCycles)
    {
      var cycles := 0;
      ghost var mode := turnModeHandler.turnMode;
      ghost var boards := [Snapshot()];
      while cycles < maxCycles
        invariant Valid() && cycles <= maxCycles && turnModeHandler.turnMode == mode
        invariant Engine.Chain(boards, mode, maxCycles)
        invariant boards[0] == old(Snapshot()) && boards[|boards| - 1] == Snapshot() && |boards| == cycles + 1
        invariant CardsOn(Snapshot()) == CardsOn(old(Snapshot())) && moves >= old(moves)
        invariant passesThroughTalon <= if old(passesThroughTalon) <= 2 then 2 else old(passesThroughTalon)
        invariant cycles > 0 ==> !ValidateGameWon(foundation)
        invariant Engine.FaceUpTails(old(tableau)) ==> Engine.FaceUpTails(tableau)
        invariant PilesBySuit(old(foundation)) ==> PilesBySuit(foundation)
        decreases maxCycles - cycles
      {
        ghost var before, left := Snapshot(), maxCycles - cycles;
        Engine.ChainOutcome(boards, mode, maxCycles, left, before);
        var end := PlayCycle();
        ghost var after := Snapshot();
        if end != Engine.Continue {
          Engine.PassEnds(before, mode, left, after, end);
          return Engine.Reported(end);
        }
        Engine.PassGoesOn(before, mode, left, after);
        Engine.ChainExtend(boards, mode, maxCycles, left, before, after);
        boards := boards + [after];
        cycles := cycles + 1;
      }
      Engine.ChainOutcome(boards, mode, maxCycles, 0, Snapshot());
      Engine.NoPassLeft(Snapshot(), mode);
      return Engine.CycleLimitReached;
    }

    // -------------------------------------------------------------------------
    // The older autoPlayGame (solitaire/vo/GameState.java), which reads and writes
    // column heads

    /**
     * addToFoundation(card) of the older GameState: false for a null card; otherwise the
     * piles are scanned in order and the card is pushed onto the first empty pile if it is
     * an Ace, or onto the first pile whose head has its suit and a rank ordinal one lower.
     */
    method LegacyAddToFoundation(card: Option<Card>) returns (added: bool)
      requires Valid()
      modifies this
      ensures Valid()
      ensures (added, foundation) == LegacyEngine.AddToFoundation(card, old(foundation))
      ensures tableau == old(tableau) && talon == old(talon) && waste == old(waste)
      ensures moves == old(moves) && passesThroughTalon == old(passesThroughTalon)
    {
      if card.None? {
        return false;
      }
      var c := card.value;
      for i := 0 to 4
        invariant unchanged(this)
        invariant LegacyEngine.PushFrom(c, foundation, i) == LegacyEngine.PushFrom(c, foundation, 0)
      {
        var foundationPile := foundation[i];
        if foundationPile == [] && c.rank == Ace {
          foundation := foundation[i := [c] + foundationPile];
          return true;
        } else if foundationPile != [] {
          var topCard := foundationPile[0];
          if topCard.suit == c.suit && Ranks.Ordinal(topCard.rank) + 1 == Ranks.Ordinal(c.rank) {
            foundation := foundation[i := [c] + foundationPile];
            return true;
          }
        }
      }
      return false;
    }

    /**
     * Step A (older): the first column whose face-up head addToFoundation accepts loses
     * that head (pop); no card is turned afterwards.
     */
    method LegacyMoveToFoundation() returns (moved: bool)
      requires Valid()
      modifies this
      ensures Valid()
      ensures (Snapshot(), moved) == LegacyEngine.FoundationStep(old(Snapshot()))
    {
      for c := 0 to 7
        invariant Snapshot() == old(Snapshot())
        invariant forall j :: 0 <= j < c ==> !LegacyEngine.HeadToFoundationOk(tableau, foundation, j)
      {
        var column := tableau[c];
        if column != [] {
          var topCard := column[0];
          if topCard.faceUp {
            var added := LegacyAddToFoundation(Some(topCard));
            if added {
              assert LegacyEngine.HeadToFoundationOk(old(tableau), old(foundation), c);
              assert LegacyEngine.FirstHeadToFoundation(old(tableau), old(foundation), 0) == c;
              tableau := tableau[c := column[1..]];
              moves := moves + 1;
              return true;
            }
          }
        }
      }
      return false;
    }

    /**
     * Step B (older): for the first non-empty source column whose head canMoveToTableau
     * lets onto another column, the head is pushed onto the first such target and turned
     * face-up. When step A already moved, only the first non-empty source is tried.
     */
    method LegacyMoveBetweenColumns(movedBefore: bool) returns (moved: bool)
      requires Valid()
      modifies this
      ensures Valid()
      ensures (Snapshot(), moved) == LegacyEngine.ColumnStep(old(Snapshot()), movedBefore)
    {
      for s := 0 to 7
        invariant unchanged(this)
        invariant !movedBefore ==> forall j :: 0 <= j < s && tableau[j] != [] ==> LegacyEngine.FirstHeadTarget(tableau, j, 0) == 7
        invariant movedBefore ==> forall j :: 0 <= j < s ==> tableau[j] == []
      {
        var sourceColumn := tableau[s];
        if sourceColumn != [] {
          var topSourceCard := sourceColumn[0];
          for t := 0 to 7
            invariant unchanged(this)
            invariant forall j :: 0 <= j < t ==> !LegacyEngine.HeadMoves(tableau, s, j)
          {
            if s != t && AcceptsOnHead(tableau[t], topSourceCard) {
              assert LegacyEngine.HeadMoves(tableau, s, t);
              LegacyEngine.FirstHeadMoveIsFound(tableau, movedBefore, s, t);
              tableau := tableau[s := sourceColumn[1..]][t := [SetFaceUp(topSourceCard, true)] + tableau[t]];
              moves := moves + 1;
              return true;
            }
          }
          assert LegacyEngine.FirstHeadTarget(tableau, s, 0) == 7;
          if movedBefore {
            assert LegacyEngine.FirstNonEmpty(tableau, 0) == s;
            return false;
          }
        }
      }
      return false;
    }

    /**
     * Step C (older) on a non-empty talon: its head goes to the foundation if
     * addToFoundation accepts it, otherwise face-up onto the head of the first column
     * that is empty (King only) or whose head is one rank higher in the other colour.
     */
    method LegacyMoveFromTalon() returns (moved: bool)
      requires Valid() && talon != []
      modifies this
      ensures Valid()
      ensures (Snapshot(), moved) == LegacyEngine.TalonStep(old(Snapshot()))
    {
      var topCard := talon[0];
      var added := LegacyAddToFoundation(Some(topCard));
      if added {
        talon := talon[1..];
        moves := moves + 1;
        return true;
      }
      for c := 0 to 7
        invariant Snapshot() == old(Snapshot())
        invariant forall j :: 0 <= j < c ==> !AcceptsOnHead(tableau[j], topCard)
      {
        var column := tableau[c];
        if (column == [] && topCard.rank == King) ||
           (column != [] && Ranks.Ordinal(column[0].rank) == Ranks.Ordinal(topCard.rank) + 1 &&
            ColorOf(column[0].suit) != ColorOf(topCard.suit)) {
          assert AcceptsOnHead(tableau[c], topCard);
          assert LegacyEngine.FirstTalonColumn(tableau, topCard, 0) == c;
          tableau := tableau[c := [SetFaceUp(topCard, true)] + column];
          talon := talon[1..];
          moves := moves + 1;
          return true;
        }
      }
      return false;
    }

    /**
     * One pass of the older autoPlayGame loop: step A, step B, step C only when nothing
     * moved, deal or redeal, the win check, and the stop test "!updated".
     */
    method LegacyPlayCycle() returns (end: Engine.CycleEnd)
      requires Valid()
      modifies this
      ensures Valid()
      ensures (Snapshot(), end) == LegacyEngine.Cycle(old(Snapshot()), turnModeHandler.turnMode)
    {
      var movedToFoundation := LegacyMoveToFoundation();
      var movedBetweenColumns := LegacyMoveBetweenColumns(movedToFoundation);
      var moved := movedToFoundation || movedBetweenColumns;
      if !moved && talon != [] {
        moved := LegacyMoveFromTalon();
      }
      var dealt := DealOrRedealTalon(moved);
      if dealt.None? {
        return Engine.TurnModeUnset;
      }
      var updated := moved || dealt.value;
      if ValidateGameWon(foundation) {
        return Engine.Won;
      }
      end := if updated then Engine.Continue else Engine.NoMoves;
    }

    /**
     * autoPlayGame (older), for at most maxCycles passes of its loop. It reports a win
     * exactly when every foundation pile holds 13 cards, stops on a cycle that changed
     * nothing, creates and loses no card, redeals at most twice and keeps every foundation
     * pile an ascending same-suit run from an Ace.
     */
    method LegacyAutoPlayGame(maxCycles: nat) returns (result: Engine.GameResult)
      requires Valid()
      modifies this
      ensures Valid()
      ensures CardsOn(Snapshot()) == CardsOn(old(Snapshot())) && moves >= old(moves)
      ensures passesThroughTalon <= if old(passesThroughTalon) <= 2 then 2 else old(passesThroughTalon)
      ensures maxCycles > 0 && result != Engine.ModeNotSet ==> (result == Engine.GameWon <==> ValidateGameWon(foundation))
      ensures LegacyEngine.Runs(old(foundation)) ==> LegacyEngine.Runs(foundation)
      ensures (Snapshot(), result) == LegacyEngine.Play(old(Snapshot()), turnModeHandler.turnMode, maxCycles)
    {
      var cycles := 0;
      ghost var mode := turnModeHandler.turnMode;
      ghost var boards := [Snapshot()];
      while cycles < maxCycles
        invariant Valid() && cycles <= maxCycles && turnModeHandler.turnMode == mode
        invariant LegacyEngine.Chain(boards, mode, maxCycles)
        invariant boards[0] == old(Snapshot()) && boards[|boards| - 1] == Snapshot() && |boards| == cycles + 1
        invariant CardsOn(Snapshot()) == CardsOn(old(Snapshot())) && moves >= old(moves)
        invariant passesThroughTalon <= if old(passesThroughTalon) <= 2 then 2 else old(passesThroughTalon)
        invariant cycles > 0 ==> !ValidateGameWon(foundation)
        invariant LegacyEngine.Runs(old(foundation)) ==> LegacyEngine.Runs(foundation)
        decreases maxCycles - cycles
      {
        ghost var before, left := Snapshot(), maxCycles - cycles;
        LegacyEngine.ChainOutcome(boards, mode, maxCycles, left, before);
        var end := LegacyPlayCycle();
        ghost var after := Snapshot();
        if end != Engine.Continue {
          LegacyEngine.PassEnds(before, mode, left, after, end);
          return Engine.Reported(end);
        }
        LegacyEngine.PassGoesOn(before, mode, left, after);
        LegacyEngine.ChainExtend(boards, mode, maxCycles, left, before, after);
        boards := boards + [after];
        cycles := cycles + 1;
      }
      LegacyEngine.ChainOutcome(boards, mode, maxCycles, 0, Snapshot());
      LegacyEngine.NoPassLeft(Snapshot(), mode);
      return Engine.CycleLimitReached;
    }
  }

  /** handleShuffledDeck(shuffledDeck, gameState): only hands the deck to distributeCards. */
  method HandleShuffledDeck(shuffledDeck: Option<seq<Card>>, gameState: GameState) returns (r: Outcome<DeckError>)
    requires gameState.Valid()
    modifies gameState
    ensures gameState.Valid() && r == ValidateDeck(shuffledDeck)
    ensures r.Fail? ==> gameState.Snapshot() == old(gameState.Snapshot())
    ensures r.Pass? ==> gameState.Snapshot() == Distribute(old(gameState.Snapshot()), shuffledDeck.value)
  {
    r := gameState.DistributeCards(shuffledDeck);
  }
}
