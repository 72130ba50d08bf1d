/**
 * One cycle of the newer autoPlayGame loop (SolitaireRun GameState.java), as a function
 * on Board. Tableau columns are read and written at their tail (peekLast, pollLast,
 * addLast); foundation piles at their head, through addToFoundation.
 */
module Engine {
  import opened Wrappers
  import opened Ranks
  import opened Suits
  import opened Cards
  import opened TurnModes
  import opened MovementRules
  import opened Boards

  /** The tableau test of steps 1 and 3 for a non-empty column: its tail is one rank higher and of the other colour. */
  predicate AcceptsOnTail(column: seq<Card>, card: Card)
  {
    column != [] &&
    Ranks.Ordinal(Last(column).rank) == Ranks.Ordinal(card.rank) + 1 &&
    ColorOf(Last(column).suit) != ColorOf(card.suit)
  }

  /** Every non-empty column shows its last card face-up. */
  predicate FaceUpTails(tableau: seq<seq<Card>>)
  {
    forall c :: 0 <= c < |tableau| && tableau[c] != [] ==> Last(tableau[c]).faceUp
  }

  // ---------------------------------------------------------------------------
  // Step 1: move a run between columns

  /**
   * The run of column s may go to column t: they differ, the run is not empty, it is
   * not a King lying at the column's first index, and column t is empty with a King
   * leading the run, or accepts the run's first card at its tail.
   */
  predicate RunMoves(tableau: seq<seq<Card>>, s: nat, t: nat)
    requires s < |tableau| && t < |tableau|
  {
    var run := MovableRun(tableau[s]);
    s != t && run != [] &&
    !(run[0].rank == King && RunStart(tableau[s], |tableau[s]|) == 0) &&
    ((tableau[t] == [] && run[0].rank == King) || AcceptsOnTail(tableau[t], run[0]))
  }

  /** The first target column at or after t for the run of column s; |tableau| when none. */
  function FirstRunTarget(tableau: seq<seq<Card>>, s: nat, t: nat): (r: nat)
    requires s < |tableau| && t <= |tableau|
    ensures t <= r <= |tableau|
    ensures r < |tableau| ==> RunMoves(tableau, s, r)
    ensures forall j :: t <= j < r ==> !RunMoves(tableau, s, j)
    decreases |tableau| - t
  {
    if t == |tableau| then t
    else if RunMoves(tableau, s, t) then t
    else FirstRunTarget(tableau, s, t + 1)
  }

  /** The first source column at or after s whose run has a target; |tableau| when none. */
  function FirstRunSource(tableau: seq<seq<Card>>, s: nat): (r: nat)
    requires s <= |tableau|
    ensures s <= r <= |tableau|
    ensures r < |tableau| ==> FirstRunTarget(tableau, r, 0) < |tableau|
    ensures forall j :: s <= j < r ==> FirstRunTarget(tableau, j, 0) == |tableau|
    decreases |tableau| - s
  {
    if s == |tableau| then s
    else if FirstRunTarget(tableau, s, 0) < |tableau| then s
    else FirstRunSource(tableau, s + 1)
  }

  /**
   * The run leaves column s card by card (each remove takes the card at the run's start)
   * and is appended to column t; the new last card of column s is turned face-up.
   */
  function MoveRun(tableau: seq<seq<Card>>, s: nat, t: nat): (r: seq<seq<Card>>)
    requires s < |tableau| && t < |tableau| && s != t
    ensures |r| == |tableau|
    ensures r[t] == tableau[t] + MovableRun(tableau[s])
    ensures r[s] == FlipLastUp(tableau[s][..RunStart(tableau[s], |tableau[s]|)])
    ensures forall c :: 0 <= c < |tableau| && c != s && c != t ==> r[c] == tableau[c]
  {
    var start := RunStart(tableau[s], |tableau[s]|);
    tableau[s := FlipLastUp(tableau[s][..start])][t := tableau[t] + tableau[s][start..]]
  }

  /** Step 1: the first source column with a target, and its first target; one move. */
  function RunStep(b: Board): (r: (Board, bool))
    requires Shaped(b)
    ensures !r.1 ==> r.0 == b
    ensures r.0.moves == b.moves + (if r.1 then 1 else 0) && r.0.passesThroughTalon == b.passesThroughTalon
  {
    var s := FirstRunSource(b.tableau, 0);
    if s == |b.tableau| then (b, false)
    else
      var t := FirstRunTarget(b.tableau, s, 0);
      (b.(tableau := MoveRun(b.tableau, s, t), moves := b.moves + 1), true)
  }

  /**
   * A pair (s, t) with RunMoves is the one step 1 picks exactly when no earlier source
   * has a target and no earlier target takes the run of s.
   */
  lemma FirstRunMoveIsFound(tableau: seq<seq<Card>>, s: nat, t: nat)
    requires s < |tableau| && t < |tableau| && RunMoves(tableau, s, t)
    requires forall j :: 0 <= j < s ==> FirstRunTarget(tableau, j, 0) == |tableau|
    requires forall j :: 0 <= j < t ==> !RunMoves(tableau, s, j)
    ensures s == FirstRunSource(tableau, 0) && t == FirstRunTarget(tableau, s, 0)
  {
    assert FirstRunTarget(tableau, s, 0) == t;
  }

  /** Moving a run keeps every card on the tableau. */
  lemma MoveRunConserves(tableau: seq<seq<Card>>, s: nat, t: nat)
    requires s < |tableau| && t < |tableau| && s != t
    ensures Count(MoveRun(tableau, s, t)) == Count(tableau)
  {
    var start := RunStart(tableau[s], |tableau[s]|);
    var source := tableau[s];
    var kept := FlipLastUp(source[..start]);
    var run := source[start..];
    var between := tableau[s := kept];
    assert MoveRun(tableau, s, t) == between[t := tableau[t] + run];
    CountUpdate(tableau, s, kept);
    CountUpdate(between, t, tableau[t] + run);
    assert between[t] == tableau[t];
    IdsAppend(tableau[t], run);
    IdsAppend(source[..start], run);
    assert source == source[..start] + run;
    var whole, target, gone, added := Count(tableau), multiset(Ids(tableau[t])), multiset(Ids(source[..start])), multiset(Ids(run));
    assert (Count(between) + added) + gone == whole + gone;
    Cancel(Count(between) + added, whole, gone);
    assert Count(MoveRun(tableau, s, t)) + target == whole + target;
    Cancel(Count(MoveRun(tableau, s, t)), whole, target);
  }

  /**
   * Step 1 moves a run exactly when some source column has a target; the run moved is
   * getMovableSequence's, it lands behind a card that takes its first card, and no card
   * is gained or lost.
   */
  lemma RunStepMeaning(b: Board)
    requires Shaped(b)
    ensures RunStep(b).1 <==> exists s, t :: 0 <= s < 7 && 0 <= t < 7 && RunMoves(b.tableau, s, t)
    ensures Shaped(RunStep(b).0) && CardsOn(RunStep(b).0) == CardsOn(b)
    ensures RunStep(b).0.foundation == b.foundation && RunStep(b).0.talon == b.talon && RunStep(b).0.waste == b.waste
    ensures RunStep(b).0.passesThroughTalon == b.passesThroughTalon
    ensures RunStep(b).0.moves == b.moves + (if RunStep(b).1 then 1 else 0)
  {
    var T := b.tableau;
    var s := FirstRunSource(T, 0);
    if s < 7 {
      var t := FirstRunTarget(T, s, 0);
      MoveRunConserves(T, s, t);
      CardsOnParts(b);
      CardsOnParts(RunStep(b).0);
    } else {
      forall s', t' | 0 <= s' < 7 && 0 <= t' < 7
        ensures !RunMoves(T, s', t')
      {
        assert FirstRunTarget(T, s', 0) == 7;
      }
    }
  }

  /** Step 1 keeps every column's last card face-up. */
  lemma RunStepKeepsFaceUpTails(b: Board)
    requires Shaped(b)
    ensures FaceUpTails(b.tableau) ==> FaceUpTails(RunStep(b).0.tableau)
  {
    var T := b.tableau;
    var s := FirstRunSource(T, 0);
    if s < 7 && FaceUpTails(T) {
      var t := FirstRunTarget(T, s, 0);
      var run := MovableRun(T[s]);
      MovableRunIsOrdered(T[s]);
      var r := MoveRun(T, s, t);
      assert Last(r[t]) == run[|run| - 1];
    }
  }

  // ---------------------------------------------------------------------------
  // Step 2: a column's last card to the foundation

  /** Column c shows a face-up last card that addToFoundation accepts. */
  predicate ToFoundationOk(tableau: seq<seq<Card>>, foundation: seq<seq<Card>>, c: nat)
    requires c < |tableau| && |foundation| == 4
  {
    tableau[c] != [] && Last(tableau[c]).faceUp && FoundationAccepts(Last(tableau[c]), foundation)
  }

  function FirstFoundationColumn(tableau: seq<seq<Card>>, foundation: seq<seq<Card>>, c: nat): (r: nat)
    requires c <= |tableau| && |foundation| == 4
    ensures c <= r <= |tableau|
    ensures r < |tableau| ==> ToFoundationOk(tableau, foundation, r)
    ensures forall j :: c <= j < r ==> !ToFoundationOk(tableau, foundation, j)
    decreases |tableau| - c
  {
    if c == |tableau| then c
    else if ToFoundationOk(tableau, foundation, c) then c
    else FirstFoundationColumn(tableau, foundation, c + 1)
  }

  /** Step 2: the first such column gives up its last card to the foundation and turns its new last card up. */
  function FoundationStep(b: Board): (r: (Board, bool))
    requires Shaped(b)
    ensures !r.1 ==> r.0 == b
    ensures r.0.moves == b.moves + (if r.1 then 1 else 0) && r.0.passesThroughTalon == b.passesThroughTalon
  {
    var c := FirstFoundationColumn(b.tableau, b.foundation, 0);
    if c == |b.tableau| then (b, false)
    else
      var column := b.tableau[c];
      var card := Last(column);
      (b.(tableau := b.tableau[c := FlipLastUp(column[..|column| - 1])],
          foundation := AddToFoundation(card, b.foundation).1,
          moves := b.moves + 1), true)
  }

  /** AddToFoundation, when it accepts, adds exactly the one card to the foundation count. */
  lemma AddToFoundationCount(card: Card, foundation: seq<seq<Card>>)
    requires |foundation| == 4 && FoundationAccepts(card, foundation)
    ensures Count(AddToFoundation(card, foundation).1) == Count(foundation) + multiset{Id(card)}
  {
    var i := Suits.Ordinal(card.suit);
    var r: seq<seq<Card>> := AddToFoundation(card, foundation).1;
    assert r == foundation[i := [card] + foundation[i]];
    CountUpdate(foundation, i, [card] + foundation[i]);
    IdsAppend([card], foundation[i]);
    var whole, pile := Count(foundation), multiset(Ids(foundation[i]));
    assert Count(r) + pile == (whole + multiset{Id(card)}) + pile;
    Cancel(Count(r), whole + multiset{Id(card)}, pile);
  }

  /** Taking the last card off a pile and turning the new last card up leaves the rest of the cards. */
  lemma DropLastCount(piles: seq<seq<Card>>, c: nat)
    requires c < |piles| && piles[c] != []
    ensures Count(piles[c := FlipLastUp(piles[c][..|piles[c]| - 1])]) + multiset{Id(Last(piles[c]))} == Count(piles)
  {
    var column := piles[c];
    var kept := FlipLastUp(column[..|column| - 1]);
    CountUpdate(piles, c, kept);
    IdsAppend(column[..|column| - 1], [Last(column)]);
    assert column == column[..|column| - 1] + [Last(column)];
    var whole, rest := Count(piles), multiset(Ids(column[..|column| - 1]));
    assert (Count(piles[c := kept]) + multiset{Id(Last(column))}) + rest == whole + rest;
    Cancel(Count(piles[c := kept]) + multiset{Id(Last(column))}, whole, rest);
  }

  /**
   * Step 2 moves a card exactly when some column shows a face-up last card the foundation
   * takes; the card changes place and none is gained or lost.
   */
  lemma FoundationStepMeaning(b: Board)
    requires Shaped(b)
    ensures FoundationStep(b).1 <==> exists c :: 0 <= c < 7 && ToFoundationOk(b.tableau, b.foundation, c)
    ensures Shaped(FoundationStep(b).0) && CardsOn(FoundationStep(b).0) == CardsOn(b)
    ensures FoundationStep(b).0.talon == b.talon && FoundationStep(b).0.waste == b.waste
    ensures FoundationStep(b).0.passesThroughTalon == b.passesThroughTalon
    ensures FoundationStep(b).0.moves == b.moves + (if FoundationStep(b).1 then 1 else 0)
  {
    var c := FirstFoundationColumn(b.tableau, b.foundation, 0);
    if c < 7 {
      var card := Last(b.tableau[c]);
      AddToFoundationCount(card, b.foundation);
      DropLastCount(b.tableau, c);
      CardsOnParts(b);
      CardsOnParts(FoundationStep(b).0);
      var tail, piles, rest := Count(FoundationStep(b).0.tableau), Count(b.foundation), multiset(Ids(b.talon)) + multiset(Ids(b.waste));
      assert CardsOn(FoundationStep(b).0) == tail + (piles + multiset{Id(card)}) + multiset(Ids(b.talon)) + multiset(Ids(b.waste));
    }
  }

  /** Step 2 keeps every column's last card face-up and every foundation pile to its own suit. */
  lemma FoundationStepKeepsInvariants(b: Board)
    requires Shaped(b)
    ensures FaceUpTails(b.tableau) ==> FaceUpTails(FoundationStep(b).0.tableau)
    ensures PilesBySuit(b.foundation) ==> PilesBySuit(FoundationStep(b).0.foundation)
  {
    var c := FirstFoundationColumn(b.tableau, b.foundation, 0);
    if c < 7 && PilesBySuit(b.foundation) {
      AddToFoundationKeepsSuits(Last(b.tableau[c]), b.foundation);
    }
  }

  // ---------------------------------------------------------------------------
  // Step 3: the talon's last card to the foundation or the tableau

  /** The per-column test of step 3: an empty column takes a King, a non-empty one the card its tail accepts. */
  predicate TalonColumnOk(column: seq<Card>, card: Card)
  {
    (column == [] && card.rank == King) || AcceptsOnTail(column, card)
  }

  function FirstTalonColumn(tableau: seq<seq<Card>>, card: Card, c: nat): (r: nat)
    requires c <= |tableau|
    ensures c <= r <= |tableau|
    ensures r < |tableau| ==> TalonColumnOk(tableau[r], card)
    ensures forall j :: c <= j < r ==> !TalonColumnOk(tableau[j], card)
    decreases |tableau| - c
  {
    if c == |tableau| then c
    else if TalonColumnOk(tableau[c], card) then c
    else FirstTalonColumn(tableau, card, c + 1)
  }

  /**
   * Step 3 on a non-empty talon: its last card goes to the foundation if addToFoundation
   * accepts it, otherwise face-up to the end of the first column that takes it.
   */
  function TalonStep(b: Board): (r: (Board, bool))
    requires Shaped(b) && b.talon != []
    ensures !r.1 ==> r.0 == b
    ensures r.0.moves == b.moves + (if r.1 then 1 else 0) && r.0.passesThroughTalon == b.passesThroughTalon
  {
    var card := Last(b.talon);
    var rest := b.talon[..|b.talon| - 1];
    if FoundationAccepts(card, b.foundation) then
      (b.(foundation := AddToFoundation(card, b.foundation).1, talon := rest, moves := b.moves + 1), true)
    else
      var c := FirstTalonColumn(b.tableau, card, 0);
      if c == |b.tableau| then (b, false)
      else (b.(tableau := b.tableau[c := b.tableau[c] + [SetFaceUp(card, true)]], talon := rest, moves := b.moves + 1), true)
  }

  /**
   * Step 3 moves the talon's last card exactly when the foundation or some column takes it,
   * and no card is gained or lost.
   */
  lemma TalonStepMeaning(b: Board)
    requires Shaped(b) && b.talon != []
    ensures TalonStep(b).1 <==> FoundationAccepts(Last(b.talon), b.foundation) ||
                                exists c :: 0 <= c < 7 && TalonColumnOk(b.tableau[c], Last(b.talon))
    ensures Shaped(TalonStep(b).0) && CardsOn(TalonStep(b).0) == CardsOn(b)
    ensures TalonStep(b).0.waste == b.waste && TalonStep(b).0.passesThroughTalon == b.passesThroughTalon
    ensures TalonStep(b).0.moves == b.moves + (if TalonStep(b).1 then 1 else 0)
  {
    var card := Last(b.talon);
    if FoundationAccepts(card, b.foundation) {
      TalonToFoundationConserves(b);
    } else {
      var c := FirstTalonColumn(b.tableau, card, 0);
      if c < 7 {
        TalonToColumnConserves(b, c);
      }
    }
  }

  /** The talon minus its last card, plus that card, is the talon. */
  lemma TalonSplit(b: Board)
    requires b.talon != []
    ensures multiset(Ids(b.talon)) == multiset(Ids(b.talon[..|b.talon| - 1])) + multiset{Id(Last(b.talon))}
  {
    IdsAppend(b.talon[..|b.talon| - 1], [Last(b.talon)]);
    assert b.talon == b.talon[..|b.talon| - 1] + [Last(b.talon)];
  }

  lemma TalonToFoundationConserves(b: Board)
    requires Shaped(b) && b.talon != [] && FoundationAccepts(Last(b.talon), b.foundation)
    ensures CardsOn(b.(foundation := AddToFoundation(Last(b.talon), b.foundation).1, talon := b.talon[..|b.talon| - 1], moves := b.moves + 1)) == CardsOn(b)
  {
    var card := Last(b.talon);
    var r := b.(foundation := AddToFoundation(card, b.foundation).1, talon := b.talon[..|b.talon| - 1], moves := b.moves + 1);
    CardsOnParts(b);
    CardsOnParts(r);
    TalonSplit(b);
    AddToFoundationCount(card, b.foundation);
    var T, F, rest, W := Count(b.tableau), Count(b.foundation), multiset(Ids(r.talon)), multiset(Ids(b.waste));
    assert CardsOn(r) == T + (F + multiset{Id(card)}) + rest + W;
    assert CardsOn(b) == T + F + (rest + multiset{Id(card)}) + W;
  }

  lemma TalonToColumnConserves(b: Board, c: nat)
    requires Shaped(b) && b.talon != [] && c < 7
    ensures CardsOn(b.(tableau := b.tableau[c := b.tableau[c] + [SetFaceUp(Last(b.talon), true)]], talon := b.talon[..|b.talon| - 1], moves := b.moves + 1)) == CardsOn(b)
  {
    var card := Last(b.talon);
    var placed := SetFaceUp(card, true);
    var r := b.(tableau := b.tableau[c := b.tableau[c] + [placed]], talon := b.talon[..|b.talon| - 1], moves := b.moves + 1);
    CardsOnParts(b);
    CardsOnParts(r);
    TalonSplit(b);
    CountUpdate(b.tableau, c, b.tableau[c] + [placed]);
    IdsAppend(b.tableau[c], [placed]);
    var T, F, rest, W, column := Count(b.tableau), Count(b.foundation), multiset(Ids(r.talon)), multiset(Ids(b.waste)), multiset(Ids(b.tableau[c]));
    assert Count(r.tableau) + column == (T + multiset{Id(card)}) + column;
    Cancel(Count(r.tableau), T + multiset{Id(card)}, column);
    assert CardsOn(r) == (T + multiset{Id(card)}) + F + rest + W;
    assert CardsOn(b) == T + F + (rest + multiset{Id(card)}) + W;
  }

  /** Step 3 keeps every column's last card face-up and every foundation pile to its own suit. */
  lemma TalonStepKeepsInvariants(b: Board)
    requires Shaped(b) && b.talon != []
    ensures FaceUpTails(b.tableau) ==> FaceUpTails(TalonStep(b).0.tableau)
    ensures PilesBySuit(b.foundation) ==> PilesBySuit(TalonStep(b).0.foundation)
  {
    if PilesBySuit(b.foundation) {
      AddToFoundationKeepsSuits(Last(b.talon), b.foundation);
    }
  }

  // ---------------------------------------------------------------------------
  // hasValidMoves

  /**
   * hasValidMoves as the intended check: some column shows a face-up last card, or the
   * talon's last card would be accepted by the foundation or by some column.
   */
  predicate HasValidMoves(b: Board)
    requires Shaped(b)
  {
    (exists c :: 0 <= c < 7 && b.tableau[c] != [] && Last(b.tableau[c]).faceUp) ||
    (b.talon != [] &&
      (FoundationAccepts(Last(b.talon), b.foundation) ||
       exists c :: 0 <= c < 7 && TalonColumnOk(b.tableau[c], Last(b.talon))))
  }

  /**
   * hasValidMoves as written: it answers like HasValidMoves, but its foundation check
   * calls the changing addToFoundation, so an accepted talon card is pushed onto the
   * foundation while it stays on the talon.
   */
  function HasValidMovesAsWritten(b: Board): (r: (bool, Board))
    requires Shaped(b)
    ensures r.0 == HasValidMoves(b)
    ensures !r.0 ==> r.1 == b
    ensures r.1.tableau == b.tableau && r.1.talon == b.talon && r.1.waste == b.waste &&
            r.1.moves == b.moves && r.1.passesThroughTalon == b.passesThroughTalon
    ensures r.1 != b ==> b.talon != [] && FoundationAccepts(Last(b.talon), b.foundation) &&
                         r.1.foundation == AddToFoundation(Last(b.talon), b.foundation).1
  {
    if exists c :: 0 <= c < 7 && b.tableau[c] != [] && Last(b.tableau[c]).faceUp then (true, b)
    else if b.talon == [] then (false, b)
    else
      var (added, piles) := AddToFoundation(Last(b.talon), b.foundation);
      if added then (true, b.(foundation := piles))
      else (FirstTalonColumn(b.tableau, Last(b.talon), 0) < 7, b)
  }

  /**
   * Whenever hasValidMoves as written reaches its foundation check with a playable talon
   * card, the board holds one card more than before: that card is now on the talon and
   * on the foundation.
   */
  lemma HasValidMovesAsWrittenDuplicates(b: Board)
    requires Shaped(b) && b.talon != [] && FoundationAccepts(Last(b.talon), b.foundation)
    requires forall c :: 0 <= c < 7 ==> b.tableau[c] == [] || !Last(b.tableau[c]).faceUp
    ensures HasValidMovesAsWritten(b).0
    ensures CardsOn(HasValidMovesAsWritten(b).1) == CardsOn(b) + multiset{Id(Last(b.talon))}
  {
    var r := HasValidMovesAsWritten(b).1;
    AddToFoundationCount(Last(b.talon), b.foundation);
    CardsOnParts(b);
    CardsOnParts(r);
  }

  /**
   * A reduced board, with few cards: the only tableau card is the Two of Hearts, the
   * Ace of Hearts is on the foundation, and the talon's last card is the Ace of Spades.
   * In a full game the same situation arises whenever step 2 moves the last tableau
   * card and the talon's last card is then playable on the foundation.
   */
  function CounterexampleStart(): Board
  {
    Board([[Card(Two, Hearts, true)], [], [], [], [], [], []],
          [[Card(Ace, Hearts, true)], [], [], []],
          [Card(King, Clubs, false), Card(Ace, Spades, false)], [], 0, 0)
  }

  /** The same board after step 2 has moved the Two of Hearts onto the Ace of Hearts. */
  function CounterexampleAfterStep2(): Board
  {
    Board([[], [], [], [], [], [], []],
          [[Card(Two, Hearts, true), Card(Ace, Hearts, true)], [], [], []],
          [Card(King, Clubs, false), Card(Ace, Spades, false)], [], 1, 0)
  }

  /** On the start board no run has a target: the Two of Hearts fits on no empty column. */
  lemma CounterexampleNoRunMove()
    ensures RunStep(CounterexampleStart()) == (CounterexampleStart(), false)
  {
    var T := CounterexampleStart().tableau;
    assert MovableRun(T[0]) == [Card(Two, Hearts, true)] by {
      MovableRunOfDealtColumn(T[0]);
    }
    forall s | 0 <= s < 7
      ensures FirstRunTarget(T, s, 0) == 7
    {
      forall t | 0 <= t < 7
        ensures !RunMoves(T, s, t)
      {
        if s > 0 {
          assert T[s] == [];
        }
      }
    }
    assert FirstRunSource(T, 0) == 7;
  }

  /** Step 2 moves the Two of Hearts from column 0 onto the Ace of Hearts. */
  lemma CounterexampleFoundationMove()
    ensures FoundationStep(CounterexampleStart()) == (CounterexampleAfterStep2(), true)
  {
    var before := CounterexampleStart();
    var T := before.tableau;
    assert ToFoundationOk(T, before.foundation, 0);
    assert FirstFoundationColumn(T, before.foundation, 0) == 0;
    assert FlipLastUp(T[0][..0]) == [];
    assert T[0 := []] == [[], [], [], [], [], [], []];
    var piles: seq<seq<Card>> := AddToFoundation(Card(Two, Hearts, true), before.foundation).1;
    assert piles[0] == [Card(Two, Hearts, true), Card(Ace, Hearts, true)];
    assert piles == [[Card(Two, Hearts, true), Card(Ace, Hearts, true)], [], [], []];
  }

  /**
   * The cycle from the start board: step 1 moves nothing, step 2 moves the Two of
   * Hearts, so step 3 is skipped and the Ace of Spades stays the talon's last card.
   */
  lemma CounterexampleCycleStart()
    ensures RunStep(CounterexampleStart()) == (CounterexampleStart(), false)
    ensures FoundationStep(CounterexampleStart()) == (CounterexampleAfterStep2(), true)
    ensures TalonStepIfStill(CounterexampleAfterStep2(), true) == (CounterexampleAfterStep2(), false)
  {
    CounterexampleNoRunMove();
    CounterexampleFoundationMove();
  }

  /** Whatever board hasValidMoves as written leaves holds at most the talon's last card twice, and keeps piles by suit. */
  lemma HasValidMovesAsWrittenAddsTalonCard(b: Board)
    requires Shaped(b)
    ensures var checked := HasValidMovesAsWritten(b).1;
            checked != b ==> b.talon != [] && CardsOn(checked) == CardsOn(b) + multiset{Id(Last(b.talon))}
    ensures PilesBySuit(b.foundation) ==> PilesBySuit(HasValidMovesAsWritten(b).1.foundation)
  {
    var checked := HasValidMovesAsWritten(b).1;
    if checked != b {
      AddToFoundationCount(Last(b.talon), b.foundation);
      CardsOnParts(b);
      CardsOnParts(checked);
      if PilesBySuit(b.foundation) {
        AddToFoundationKeepsSuits(Last(b.talon), b.foundation);
      }
    }
  }

  /**
   * On that board hasValidMoves as written pushes the Ace of Spades onto pile 3 while
   * it stays the talon's last card: the board now holds two Aces of Spades.
   */
  lemma HasValidMovesAsWrittenCounterexample()
    ensures var checked := HasValidMovesAsWritten(CounterexampleAfterStep2()).1;
            checked.foundation[3] == [Card(Ace, Spades, false)] && checked.talon == CounterexampleAfterStep2().talon &&
            CardsOn(checked) == CardsOn(CounterexampleAfterStep2()) + multiset{CardId(Ace, Spades)}
  {
    var after := CounterexampleAfterStep2();
    var card := Card(Ace, Spades, false);
    assert Last(after.talon) == card && Suits.Ordinal(card.suit) == 3;
    assert forall c :: 0 <= c < 7 ==> after.tableau[c] == [];
    HasValidMovesAsWrittenDuplicates(after);
    assert HasValidMovesAsWritten(after).1.foundation == AddToFoundation(card, after.foundation).1;
  }

  /** With every column's last card face-up, hasValidMoves holds as long as any column has a card. */
  lemma FaceUpTailsGiveValidMoves(b: Board)
    requires Shaped(b) && FaceUpTails(b.tableau)
    requires exists c :: 0 <= c < 7 && b.tableau[c] != []
    ensures HasValidMoves(b)
  {
  }

  // ---------------------------------------------------------------------------
  // One cycle and the loop

  datatype CycleEnd = Continue | Won | NoMoves | TurnModeUnset

  /**
   * One pass of the while loop of autoPlayGame: step 1, then step 2 (which runs even after
   * step 1 moved), step 3 only if nothing moved, the deal-or-redeal tail, the win check, and
   * the stop test "!updated || !hasValidMoves()" (hasValidMoves only asked when updated).
   */
  function Cycle(b: Board, mode: Option<TurnMode>): (r: (Board, CycleEnd))
    requires Shaped(b)
    ensures Shaped(r.0) && CardsOn(r.0) == CardsOn(b) && r.0.moves >= b.moves
    ensures r.0.passesThroughTalon == b.passesThroughTalon ||
            (r.0.passesThroughTalon == b.passesThroughTalon + 1 && b.passesThroughTalon < 2)
    ensures r.1 == Won <==> ValidateGameWon(r.0.foundation) && r.1 != TurnModeUnset
    ensures r.1 == NoMoves <==> r.1 != TurnModeUnset && !ValidateGameWon(r.0.foundation) &&
                                (r.0 == b || !HasValidMoves(r.0))
    ensures FaceUpTails(b.tableau) ==> FaceUpTails(r.0.tableau)
    ensures PilesBySuit(b.foundation) ==> PilesBySuit(r.0.foundation)
  {
    var (b1, moved1) := RunStep(b);
    RunStepMeaning(b);
    RunStepKeepsFaceUpTails(b);
    var (b2, moved2) := FoundationStep(b1);
    FoundationStepMeaning(b1);
    FoundationStepKeepsInvariants(b1);
    var moved := moved1 || moved2;
    var (b3, moved3) := TalonStepIfStill(b2, moved);
    match DealOrRedeal(b3, mode, moved || moved3)
    case None => (b3, TurnModeUnset)
    case Some((b4, dealt)) =>
      var updated := moved || moved3 || dealt;
      if ValidateGameWon(b4.foundation) then (b4, Won)
      else if !updated || !HasValidMoves(b4) then (b4, NoMoves)
      else (b4, Continue)
  }

  /** Step 3 guarded as in the loop: only when nothing has moved yet and the talon has cards. */
  function TalonStepIfStill(b: Board, moved: bool): (r: (Board, bool))
    requires Shaped(b)
    ensures Shaped(r.0) && CardsOn(r.0) == CardsOn(b) && r.0.moves == b.moves + (if r.1 then 1 else 0)
    ensures r.0.waste == b.waste && r.0.passesThroughTalon == b.passesThroughTalon
    ensures moved || b.talon == [] ==> r == (b, false)
    ensures !r.1 ==> r.0 == b
    ensures FaceUpTails(b.tableau) ==> FaceUpTails(r.0.tableau)
    ensures PilesBySuit(b.foundation) ==> PilesBySuit(r.0.foundation)
  {
    if !moved && b.talon != [] then
      TalonStepMeaning(b);
      TalonStepKeepsInvariants(b);
      TalonStep(b)
    else (b, false)
  }

  /**
   * One pass of the loop as written. The stop test's hasValidMoves pushes a talon card
   * that the foundation takes onto its pile, and only when it answers true; a pass that
   * answers false, or never asks, ends as in Cycle. So a pass that goes on may leave that
   * card both on the talon and on the foundation.
   */
  function CycleAsWritten(b: Board, mode: Option<TurnMode>): (r: (Board, CycleEnd))
    requires Shaped(b)
    ensures r.1 == Cycle(b, mode).1
    ensures r.1 != Continue ==> r.0 == Cycle(b, mode).0
    ensures var c := Cycle(b, mode).0;
            r.0.tableau == c.tableau && r.0.talon == c.talon && r.0.waste == c.waste &&
            r.0.moves == c.moves && r.0.passesThroughTalon == c.passesThroughTalon
    ensures r.0.foundation == Cycle(b, mode).0.foundation ==> CardsOn(r.0) == CardsOn(b)
    ensures r.0.foundation != Cycle(b, mode).0.foundation ==>
              r.1 == Continue && r.0.talon != [] &&
              CardsOn(r.0) == CardsOn(b) + multiset{Id(Last(r.0.talon))}
    ensures PilesBySuit(b.foundation) ==> PilesBySuit(r.0.foundation)
  {
    var (b4, end) := Cycle(b, mode);
    if end == Continue then
      HasValidMovesAsWrittenAddsTalonCard(b4);
      var checked := HasValidMovesAsWritten(b4).1;
      (checked, Continue)
    else (b4, end)
  }

  /**
   * From the counterexample board the as-written pass goes on with two Aces of Spades
   * on the board: step 2 moved the Two of Hearts, so the stop test asked hasValidMoves.
   */
  lemma CycleAsWrittenCounterexample(mode: Option<TurnMode>)
    ensures var r := CycleAsWritten(CounterexampleStart(), mode);
            r.1 == Continue && CardsOn(r.0) == CardsOn(CounterexampleStart()) + multiset{CardId(Ace, Spades)}
  {
    var start := CounterexampleStart();
    var after := CounterexampleAfterStep2();
    CounterexampleCycleStart();
    FoundationStepMeaning(start);
    HasValidMovesAsWrittenCounterexample();
    assert !ValidateGameWon(after.foundation) by {
      assert |after.foundation[1]| == 0;
    }
    assert HasValidMoves(after);
    assert Cycle(start, mode) == (after, Continue);
  }

  /** How autoPlayGame ends: a win, no move left, the exception for an unset mode, or the cycle bound. */
  datatype GameResult = GameWon | Stuck | ModeNotSet | CycleLimitReached

  /** The result reported for a cycle that ends the loop. */
  function Reported(end: CycleEnd): GameResult
  {
    match end
    case Won => GameWon
    case TurnModeUnset => ModeNotSet
    case _ => Stuck
  }

  /**
   * The while loop of autoPlayGame, for at most fuel passes: the loop test. With no pass
   * left the bound is reached; otherwise Pass runs the loop body. PlayKeeps states what
   * a whole game keeps.
   */
  function Play(b: Board, mode: Option<TurnMode>, fuel: nat): (r: (Board, GameResult))
    requires Shaped(b)
    decreases fuel, 1
  {
    if fuel == 0 then (b, CycleLimitReached) else Pass(b, mode, fuel)
  }

  /**
   * The loop body with fuel passes allowed: one Cycle; the loop goes round again on
   * Continue, and any other end of the pass decides the result.
   */
  function Pass(b: Board, mode: Option<TurnMode>, fuel: nat): (r: (Board, GameResult))
    requires Shaped(b) && fuel > 0
    decreases fuel, 0
  {
    var (b1, end) := Cycle(b, mode);
    if end == Continue then Play(b1, mode, fuel - 1) else (b1, Reported(end))
  }

  /**
   * Play's result under another name. The lemmas about runs of passes below speak of
   * Outcome, so that a pass is unfolded only where one of them asks for it.
   */
  ghost function Outcome(b: Board, mode: Option<TurnMode>, fuel: nat): (Board, GameResult)
    requires Shaped(b)
  {
    Play(b, mode, fuel)
  }

  /** A pass that goes on leaves the rest of the game to the board it made, with one pass fewer. */
  lemma PassGoesOn(b: Board, mode: Option<TurnMode>, fuel: nat, b1: Board)
    requires Shaped(b) && fuel > 0 && Cycle(b, mode) == (b1, Continue)
    ensures Shaped(b1) && Outcome(b, mode, fuel) == Outcome(b1, mode, fuel - 1)
  {
    assert Play(b, mode, fuel) == Play(b1, mode, fuel - 1);
  }

  /** A pass that ends otherwise ends the game with the board it made and the result it reports. */
  lemma PassEnds(b: Board, mode: Option<TurnMode>, fuel: nat, b1: Board, end: CycleEnd)
    requires Shaped(b) && fuel > 0 && Cycle(b, mode) == (b1, end) && end != Continue
    ensures Outcome(b, mode, fuel) == (b1, Reported(end))
  {
    assert Play(b, mode, fuel) == (b1, Reported(end));
  }

  /** With no pass left the game stops where it is, at the bound. */
  lemma NoPassLeft(b: Board, mode: Option<TurnMode>)
    requires Shaped(b)
    ensures Outcome(b, mode, 0) == (b, CycleLimitReached)
  {
    assert Play(b, mode, 0) == (b, CycleLimitReached);
  }

  /**
   * Over a whole game no card is created or lost, the move counter never decreases, the
   * talon is redealt at most twice, a win is reported exactly when every pile holds 13
   * cards (unless the turn mode is unset or no pass was allowed), and face-up column
   * tails and single-suit piles are kept.
   */
  lemma {:induction false} PlayKeeps(b: Board, mode: Option<TurnMode>, fuel: nat)
    requires Shaped(b)
    ensures var r := Play(b, mode, fuel);
            Shaped(r.0) && CardsOn(r.0) == CardsOn(b) && r.0.moves >= b.moves &&
            r.0.passesThroughTalon <= (if b.passesThroughTalon <= 2 then 2 else b.passesThroughTalon) &&
            (fuel > 0 && r.1 != ModeNotSet ==> (r.1 == GameWon <==> ValidateGameWon(r.0.foundation))) &&
            (FaceUpTails(b.tableau) ==> FaceUpTails(r.0.tableau)) &&
            (PilesBySuit(b.foundation) ==> PilesBySuit(r.0.foundation))
    decreases fuel
  {
    if fuel > 0 {
      var (b1, end) := Cycle(b, mode);
      if end == Continue {
        PlayKeeps(b1, mode, fuel - 1);
        assert Play(b, mode, fuel) == Play(b1, mode, fuel - 1);
      } else {
        assert Play(b, mode, fuel) == (b1, Reported(end));
      }
    }
  }

  /**
   * Boards t[0], t[1], ... met between passes of one game of at most fuel passes: each
   * has the same outcome as the one before, with one pass fewer left.
   */
  ghost predicate Chain(t: seq<Board>, mode: Option<TurnMode>, fuel: nat)
    decreases |t|
  {
    |t| >= 1 && |t| - 1 <= fuel && Shaped(t[0]) &&
    (|t| == 1 ||
     (Shaped(t[1]) && Outcome(t[0], mode, fuel) == Outcome(t[1], mode, fuel - 1) &&
      Chain(t[1..], mode, fuel - 1)))
  }

  /** The first and the last board of a chain have the same outcome. */
  lemma {:induction false} ChainOutcome(t: seq<Board>, mode: Option<TurnMode>, fuel: nat, left: nat, last: Board)
    requires Chain(t, mode, fuel) && left == fuel - (|t| - 1) && t[|t| - 1] == last
    ensures Shaped(last)
    ensures Outcome(t[0], mode, fuel) == Outcome(last, mode, left)
    decreases |t|
  {
    if |t| > 1 {
      var rest := t[1..];
      assert rest[0] == t[1] && rest[|rest| - 1] == last;
      ChainOutcome(rest, mode, fuel - 1, left, last);
    }
  }

  /** A chain grows by a board with the same outcome as its last one, one pass later. */
  lemma {:induction false} ChainExtend(t: seq<Board>, mode: Option<TurnMode>, fuel: nat, left: nat, last: Board, b: Board)
    requires Chain(t, mode, fuel) && left == fuel - (|t| - 1) && left > 0 && t[|t| - 1] == last
    requires Shaped(last) && Shaped(b) && Outcome(last, mode, left) == Outcome(b, mode, left - 1)
    ensures Chain(t + [b], mode, fuel)
    decreases |t|
  {
    if |t| > 1 {
      var rest := t[1..];
      assert rest[|rest| - 1] == last;
      ChainExtend(rest, mode, fuel - 1, left, last, b);
      assert (t + [b])[1..] == rest + [b];
    }
  }

  /** The board right after distributeCards has face-up tails and empty (so single-suit) piles. */
  lemma DealtBoardInvariants(deck: seq<Card>)
    requires |deck| >= 28
    ensures FaceUpTails(Distribute(ResetBoard(), deck).tableau) && PilesBySuit(Distribute(ResetBoard(), deck).foundation)
  {
    var b := Distribute(ResetBoard(), deck);
    forall c | 0 <= c < 7 && b.tableau[c] != []
      ensures Last(b.tableau[c]).faceUp
    {
      DistributeLayout(deck, c, c);
    }
    assert b.foundation == ResetBoard().foundation;
  }
}
