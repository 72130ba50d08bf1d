/**
 * The board both GameState revisions keep: 7 tableau columns, 4 foundation piles,
 * the talon, the waste and two counters, as values. Every deque is a sequence whose
 * head is index 0. The operations the two revisions share (reset, the initial deal,
 * dealing to the waste and redealing) are specified here.
 */
module Boards {
  import opened Wrappers
  import opened Ranks
  import opened Cards
  import opened TurnModes

  datatype Board = Board(
    tableau: seq<seq<Card>>,
    foundation: seq<seq<Card>>,
    talon: seq<Card>,
    waste: seq<Card>,
    moves: int,
    passesThroughTalon: int)

  /** Seven columns and four foundation piles, as every constructor and reset leaves them. */
  predicate Shaped(b: Board)
  {
    |b.tableau| == 7 && |b.foundation| == 4
  }

  // ---------------------------------------------------------------------------
  // Cards on the board, by identity

  function Ids(s: seq<Card>): (r: seq<CardId>)
    ensures |r| == |s| && forall k :: 0 <= k < |s| ==> r[k] == Id(s[k])
  {
    seq(|s|, k requires 0 <= k < |s| => Id(s[k]))
  }

  function Flatten(piles: seq<seq<Card>>): seq<Card>
    decreases |piles|
  {
    if piles == [] then [] else piles[0] + Flatten(piles[1..])
  }

  /** Which cards are on the board, and how often, ignoring which pile and which way up. */
  function CardsOn(b: Board): multiset<CardId>
  {
    multiset(Ids(Flatten(b.tableau) + Flatten(b.foundation) + b.talon + b.waste))
  }

  lemma IdsAppend(a: seq<Card>, b: seq<Card>)
    ensures Ids(a + b) == Ids(a) + Ids(b)
  {
  }

  function Count(piles: seq<seq<Card>>): multiset<CardId>
  {
    multiset(Ids(Flatten(piles)))
  }

  /** Cards that appear on both sides of an equation cancel out. */
  lemma Cancel(a: multiset<CardId>, b: multiset<CardId>, c: multiset<CardId>)
    requires a + c == b + c
    ensures a == b
  {
    forall o
      ensures a[o] == b[o]
    {
      assert (a + c)[o] == (b + c)[o];
    }
  }

  /** CardsOn splits into the four parts of the board. */
  lemma CardsOnParts(b: Board)
    ensures CardsOn(b) == Count(b.tableau) + Count(b.foundation) + multiset(Ids(b.talon)) + multiset(Ids(b.waste))
  {
    IdsAppend(Flatten(b.tableau) + Flatten(b.foundation) + b.talon, b.waste);
    IdsAppend(Flatten(b.tableau) + Flatten(b.foundation), b.talon);
    IdsAppend(Flatten(b.tableau), Flatten(b.foundation));
  }

  lemma CountCons(piles: seq<seq<Card>>)
    requires piles != []
    ensures Count(piles) == multiset(Ids(piles[0])) + Count(piles[1..])
  {
    IdsAppend(piles[0], Flatten(piles[1..]));
  }

  /** Replacing one pile changes the count by exactly the difference between the old and the new pile. */
  lemma {:induction false} CountUpdate(piles: seq<seq<Card>>, i: nat, pile: seq<Card>)
    requires i < |piles|
    ensures Count(piles[i := pile]) + multiset(Ids(piles[i])) == Count(piles) + multiset(Ids(pile))
    decreases |piles|
  {
    var updated := piles[i := pile];
    CountCons(updated);
    CountCons(piles);
    if i == 0 {
      assert updated[0] == pile && updated[1..] == piles[1..];
      var old0, new0, rest := multiset(Ids(piles[0])), multiset(Ids(pile)), Count(piles[1..]);
      assert Count(updated) == new0 + rest && Count(piles) == old0 + rest;
      assert (new0 + rest) + old0 == (old0 + rest) + new0;
    } else {
      assert updated[0] == piles[0] && updated[1..] == piles[1..][i - 1 := pile];
      CountUpdate(piles[1..], i - 1, pile);
      var first, removed, added := multiset(Ids(piles[0])), multiset(Ids(piles[i])), multiset(Ids(pile));
      assert Count(updated[1..]) + removed == Count(piles[1..]) + added;
      assert first + (Count(updated[1..]) + removed) == first + (Count(piles[1..]) + added);
      assert first + Count(updated[1..]) + removed == first + (Count(updated[1..]) + removed);
      assert first + Count(piles[1..]) + added == first + (Count(piles[1..]) + added);
    }
  }

  /** Appending pile by pile adds the appended cards to the count. */
  lemma {:induction false} CountAppendEach(piles: seq<seq<Card>>, extras: seq<seq<Card>>)
    requires |piles| == |extras|
    ensures Count(seq(|piles|, i requires 0 <= i < |piles| => piles[i] + extras[i])) == Count(piles) + Count(extras)
    decreases |piles|
  {
    var joined := seq(|piles|, i requires 0 <= i < |piles| => piles[i] + extras[i]);
    if piles != [] {
      var rest := seq(|piles| - 1, i requires 0 <= i < |piles| - 1 => piles[1..][i] + extras[1..][i]);
      assert joined[1..] == rest;
      CountCons(joined);
      CountCons(piles);
      CountCons(extras);
      CountAppendEach(piles[1..], extras[1..]);
      IdsAppend(piles[0], extras[0]);
      var p0, e0, pr, er := multiset(Ids(piles[0])), multiset(Ids(extras[0])), Count(piles[1..]), Count(extras[1..]);
      assert Count(joined) == (p0 + e0) + (pr + er);
      assert (p0 + e0) + (pr + er) == (p0 + pr) + (e0 + er);
    } else {
      assert joined == [];
    }
  }

  /** Piles with the same identities in the same order count the same. */
  lemma {:induction false} CountSameIds(piles: seq<seq<Card>>, other: seq<seq<Card>>)
    requires |piles| == |other|
    requires forall i :: 0 <= i < |piles| ==> Ids(piles[i]) == Ids(other[i])
    ensures Count(piles) == Count(other)
    decreases |piles|
  {
    if piles != [] {
      CountSameIds(piles[1..], other[1..]);
      IdsAppend(piles[0], Flatten(piles[1..]));
      IdsAppend(other[0], Flatten(other[1..]));
    }
  }

  /** n empty piles. */
  function EmptyPiles(n: nat): (piles: seq<seq<Card>>)
    ensures |piles| == n && forall i :: 0 <= i < n ==> piles[i] == []
  {
    seq(n, _ => [])
  }

  lemma {:induction false} CountAllEmpty(n: nat)
    ensures Count(EmptyPiles(n)) == multiset{}
    decreases n
  {
    if n > 0 {
      assert EmptyPiles(n)[1..] == EmptyPiles(n - 1);
      CountAllEmpty(n - 1);
    }
  }

  // ---------------------------------------------------------------------------
  // Small pile operations

  /** The last card of a non-empty pile (peekLast). */
  function Last(s: seq<Card>): Card
    requires s != []
  {
    s[|s| - 1]
  }

  /** A column after "if not empty, peekLast().setFaceUp(true)". */
  function FlipLastUp(s: seq<Card>): (r: seq<Card>)
    ensures |r| == |s| && Ids(r) == Ids(s)
    ensures forall k :: 0 <= k < |s| - 1 ==> r[k] == s[k]
    ensures s != [] ==> Last(r) == SetFaceUp(Last(s), true)
  {
    if s == [] then [] else s[..|s| - 1] + [SetFaceUp(Last(s), true)]
  }

  /** The sequence read backwards. */
  function Reverse(s: seq<Card>): (r: seq<Card>)
    ensures |r| == |s|
    decreases |s|
  {
    if s == [] then [] else [Last(s)] + Reverse(s[..|s| - 1])
  }

  lemma {:induction false} ReverseAt(s: seq<Card>, k: nat)
    requires k < |s|
    ensures Reverse(s)[k] == s[|s| - 1 - k]
    decreases |s|
  {
    if k > 0 {
      ReverseAt(s[..|s| - 1], k - 1);
    }
  }

  /** Reading a sequence backwards twice gives it back. */
  lemma ReverseReverse(s: seq<Card>)
    ensures Reverse(Reverse(s)) == s
  {
    forall k | 0 <= k < |s|
      ensures Reverse(Reverse(s))[k] == s[k]
    {
      ReverseAt(Reverse(s), k);
      ReverseAt(s, |s| - 1 - k);
    }
  }

  lemma {:induction false} ReversePermutes(s: seq<Card>)
    ensures multiset(Ids(Reverse(s))) == multiset(Ids(s))
    decreases |s|
  {
    if s != [] {
      ReversePermutes(s[..|s| - 1]);
      IdsAppend([Last(s)], Reverse(s[..|s| - 1]));
      IdsAppend(s[..|s| - 1], [Last(s)]);
      assert s == s[..|s| - 1] + [Last(s)];
    }
  }

  /** Reverse of a longer prefix: the newly reached card goes in front. */
  lemma ReversePrefixStep(s: seq<Card>, i: nat)
    requires i < |s|
    ensures Reverse(s[..i + 1]) == [s[i]] + Reverse(s[..i])
  {
    assert s[..i + 1][..i] == s[..i];
  }

  // ---------------------------------------------------------------------------
  // resetGameState and distributeCards

  /** The board resetGameState leaves: seven empty columns, four empty piles, no talon or waste, zero counters. */
  function ResetBoard(): (b: Board)
    ensures Shaped(b) && CardsOn(b) == multiset{}
    ensures forall c :: 0 <= c < 7 ==> b.tableau[c] == []
    ensures forall i :: 0 <= i < 4 ==> b.foundation[i] == []
    ensures b.talon == [] && b.waste == [] && b.moves == 0 && b.passesThroughTalon == 0
  {
    var b := Board(EmptyPiles(7), EmptyPiles(4), [], [], 0, 0);
    CountAllEmpty(7);
    CountAllEmpty(4);
    CardsOnParts(b);
    b
  }

  /** How many cards the columns before column c receive: 0, 1, 3, 6, ... */
  function ColumnStart(c: nat): (n: nat)
    ensures 2 * n == c * (c + 1)
  {
    if c == 0 then 0 else ColumnStart(c - 1) + c
  }

  /** The c + 1 cards column c receives, in deck order, only the last one face-up. */
  function DealtColumn(deck: seq<Card>, c: nat): (column: seq<Card>)
    requires c < 7 && |deck| >= 28
    ensures |column| == c + 1
  {
    seq(c + 1, k requires 0 <= k < c + 1 => SetFaceUp(deck[ColumnStart(c) + k], k == c))
  }

  /** The seven dealt columns. */
  function DealtColumns(deck: seq<Card>): (columns: seq<seq<Card>>)
    requires |deck| >= 28
    ensures |columns| == 7 && forall c :: 0 <= c < 7 ==> columns[c] == DealtColumn(deck, c)
  {
    seq(7, c requires 0 <= c < 7 => DealtColumn(deck, c))
  }

  /** distributeCards on a validated deck: each column gets its cards appended, the rest go to the talon. */
  function Distribute(b: Board, deck: seq<Card>): (r: Board)
    requires Shaped(b) && |deck| >= 28
    ensures Shaped(r)
  {
    b.(tableau := seq(7, c requires 0 <= c < 7 => b.tableau[c] + DealtColumns(deck)[c]),
       talon := b.talon + deck[28..])
  }

  /**
   * After a reset, column c holds the next c + 1 deck cards with only the last face-up,
   * and the talon holds the remaining cards in deck order.
   */
  lemma DistributeLayout(deck: seq<Card>, c: nat, k: nat)
    requires |deck| >= 28 && c < 7 && k <= c
    ensures Distribute(ResetBoard(), deck).tableau[c] == DealtColumn(deck, c)
    ensures |Distribute(ResetBoard(), deck).tableau[c]| == c + 1
    ensures Distribute(ResetBoard(), deck).tableau[c][k] == SetFaceUp(deck[ColumnStart(c) + k], k == c)
    ensures Distribute(ResetBoard(), deck).talon == deck[28..]
    ensures Distribute(ResetBoard(), deck).foundation == ResetBoard().foundation
  {
    var b := ResetBoard();
    assert b.tableau[c] == [];
    assert Distribute(b, deck).tableau[c] == [] + DealtColumns(deck)[c];
  }

  /** The deal places every deck card exactly once: it adds exactly the deck to what the board held. */
  lemma DistributeConserves(b: Board, deck: seq<Card>)
    requires Shaped(b) && |deck| >= 28
    ensures CardsOn(Distribute(b, deck)) == CardsOn(b) + multiset(Ids(deck))
  {
    var r := Distribute(b, deck);
    CountAppendEach(b.tableau, DealtColumns(deck));
    CountDealtPrefix(deck, 7);
    assert DealtColumns(deck)[..7] == DealtColumns(deck);
    CardsOnParts(b);
    CardsOnParts(r);
    IdsAppend(b.talon, deck[28..]);
    IdsAppend(deck[..28], deck[28..]);
    assert deck == deck[..28] + deck[28..];
  }

  lemma {:induction false} CountDealtPrefix(deck: seq<Card>, n: nat)
    requires |deck| >= 28 && n <= 7
    ensures Count(DealtColumns(deck)[..n]) == multiset(Ids(deck[..ColumnStart(n)]))
    decreases n
  {
    var columns := DealtColumns(deck);
    if n == 0 {
      assert columns[..0] == [];
    } else {
      CountDealtPrefix(deck, n - 1);
      var start := ColumnStart(n - 1);
      var column := columns[n - 1];
      forall k | 0 <= k < n
        ensures Ids(column)[k] == Ids(deck[start..start + n])[k]
      {
        assert column[k] == SetFaceUp(deck[start + k], k == n - 1);
      }
      assert Ids(column) == Ids(deck[start..start + n]);
      FlattenSnoc(columns[..n - 1], column);
      assert columns[..n] == columns[..n - 1] + [column];
      IdsAppend(Flatten(columns[..n - 1]), column);
      assert deck[..ColumnStart(n)] == deck[..start] + deck[start..start + n];
      IdsAppend(deck[..start], deck[start..start + n]);
    }
  }

  lemma {:induction false} FlattenSnoc(piles: seq<seq<Card>>, pile: seq<Card>)
    ensures Flatten(piles + [pile]) == Flatten(piles) + pile
    decreases |piles|
  {
    if piles == [] {
      assert [] + [pile] == [pile];
    } else {
      assert (piles + [pile])[1..] == piles[1..] + [pile];
      FlattenSnoc(piles[1..], pile);
    }
  }

  // ---------------------------------------------------------------------------
  // Dealing the talon onto the waste and redealing

  /** How many cards one deal takes: one in TURN_1, up to three in TURN_3, never more than the talon holds. */
  function DealCount(mode: TurnMode, talonSize: nat): (n: nat)
    ensures n <= talonSize && n <= 3
    ensures talonSize > 0 ==> n > 0
    ensures n == talonSize || n == (if mode == Turn1 then 1 else 3)
    ensures mode == Turn1 ==> n == (if talonSize == 0 then 0 else 1)
    ensures mode == Turn3 ==> n == (if talonSize < 3 then talonSize else 3)
  {
    var batch := if mode == Turn1 then 1 else 3;
    if talonSize < batch then talonSize else batch
  }

  /**
   * n cards leave the talon head one at a time and each is pushed onto the waste head,
   * so the waste receives them reversed; moves grows by one per card.
   */
  function DealToWaste(b: Board, n: nat): (r: Board)
    requires n <= |b.talon|
    ensures r.talon == b.talon[n..] && r.waste == Reverse(b.talon[..n]) + b.waste
    ensures r.moves == b.moves + n
    ensures r.tableau == b.tableau && r.foundation == b.foundation && r.passesThroughTalon == b.passesThroughTalon
  {
    b.(talon := b.talon[n..], waste := Reverse(b.talon[..n]) + b.waste, moves := b.moves + n)
  }

  /**
   * redealTalon: every waste head is popped and pushed onto the talon head, so the talon
   * becomes the waste read backwards; one more pass. An empty waste changes nothing.
   */
  function Redeal(b: Board): (r: Board)
    ensures b.waste == [] ==> r == b
    ensures b.waste != [] ==> r.talon == Reverse(b.waste) + b.talon && r.waste == [] && r.passesThroughTalon == b.passesThroughTalon + 1
    ensures r.moves == b.moves && r.tableau == b.tableau && r.foundation == b.foundation
  {
    if b.waste == [] then b
    else b.(talon := Reverse(b.waste) + b.talon, waste := [], passesThroughTalon := b.passesThroughTalon + 1)
  }

  /** Dealing moves cards between talon and waste without creating or losing any. */
  lemma DealConserves(b: Board, n: nat)
    requires n <= |b.talon|
    ensures CardsOn(DealToWaste(b, n)) == CardsOn(b)
  {
    var r := DealToWaste(b, n);
    CardsOnParts(b);
    CardsOnParts(r);
    ReversePermutes(b.talon[..n]);
    IdsAppend(Reverse(b.talon[..n]), b.waste);
    IdsAppend(b.talon[..n], b.talon[n..]);
    assert b.talon == b.talon[..n] + b.talon[n..];
  }

  /** Redealing moves the waste into the talon without creating or losing any card. */
  lemma RedealConserves(b: Board)
    ensures CardsOn(Redeal(b)) == CardsOn(b)
  {
    var r := Redeal(b);
    CardsOnParts(b);
    CardsOnParts(r);
    ReversePermutes(b.waste);
    IdsAppend(Reverse(b.waste), b.talon);
  }

  /** Two deals in a row are one deal of both batches: the waste holds everything dealt so far, newest first. */
  lemma DealTwice(b: Board, n: nat, m: nat)
    requires n + m <= |b.talon|
    ensures DealToWaste(DealToWaste(b, n), m) == DealToWaste(b, n + m)
  {
    var t := b.talon;
    assert t[n..][..m] == t[n..n + m];
    assert t[n..][m..] == t[n + m..];
    ReverseConcat(t[..n], t[n..n + m]);
    assert t[..n + m] == t[..n] + t[n..n + m];
  }

  lemma {:induction false} ReverseConcat(a: seq<Card>, b: seq<Card>)
    ensures Reverse(a + b) == Reverse(b) + Reverse(a)
    decreases |b|
  {
    if b == [] {
      assert a + b == a;
    } else {
      assert (a + b)[..|a + b| - 1] == a + b[..|b| - 1];
      ReverseConcat(a, b[..|b| - 1]);
    }
  }

  /**
   * Dealing the whole talon onto an empty waste and then redealing restores the
   * talon in its original order, one pass later, with the waste empty again.
   */
  lemma DealAllThenRedealRestoresTalon(b: Board)
    requires b.waste == [] && b.talon != []
    ensures Redeal(DealToWaste(b, |b.talon|)).talon == b.talon
    ensures Redeal(DealToWaste(b, |b.talon|)).waste == []
    ensures Redeal(DealToWaste(b, |b.talon|)).passesThroughTalon == b.passesThroughTalon + 1
  {
    var dealt := DealToWaste(b, |b.talon|);
    assert b.talon[..|b.talon|] == b.talon;
    assert dealt.waste == Reverse(b.talon);
    ReverseReverse(b.talon);
  }

  // ---------------------------------------------------------------------------
  // The deal-then-redeal tail both revisions run at the end of a cycle

  /**
   * The last two steps of a cycle in both revisions. With no move made and a non-empty
   * talon, one deal, which asks the handler for the mode and throws while none is set
   * (None here); then, with no move made, an empty talon, a non-empty waste and fewer
   * than 2 passes, a redeal, even right after a deal emptied the talon. The flag says
   * whether either happened.
   */
  function DealOrRedeal(b: Board, mode: Option<TurnMode>, moved: bool): (r: Option<(Board, bool)>)
    ensures r.None? <==> !moved && b.talon != [] && mode.None?
    ensures r.Some? ==> r.value.0.tableau == b.tableau && r.value.0.foundation == b.foundation
    ensures r.Some? ==> CardsOn(r.value.0) == CardsOn(b) && r.value.0.moves >= b.moves
    ensures r.Some? ==> r.value.0.passesThroughTalon == b.passesThroughTalon ||
                        (r.value.0.passesThroughTalon == b.passesThroughTalon + 1 && b.passesThroughTalon < 2)
    ensures moved ==> r == Some((b, false))
    ensures r.Some? && !moved ==> (r.value.1 <==> b.talon != [] || (b.waste != [] && b.passesThroughTalon < 2))
    ensures r.Some? ==> (r.value.1 <==> r.value.0 != b)
    ensures r.Some? && !moved && b.talon != [] ==>
              var dealt := DealToWaste(b, DealCount(mode.value, |b.talon|));
              r.value.0 == if dealt.talon == [] && b.passesThroughTalon < 2 then Redeal(dealt) else dealt
    ensures r.Some? && !moved && b.talon == [] ==>
              r.value.0 == if b.waste != [] && b.passesThroughTalon < 2 then Redeal(b) else b
  {
    if !moved && b.talon != [] && mode.None? then None
    else
      var dealt := !moved && b.talon != [];
      var b1 := if dealt then DealToWaste(b, DealCount(mode.value, |b.talon|)) else b;
      var redealt := !moved && b1.talon == [] && b1.waste != [] && b1.passesThroughTalon < 2;
      var b2 := if redealt then Redeal(b1) else b1;
      assert dealt ==> CardsOn(b1) == CardsOn(b) by {
        if dealt {
          DealConserves(b, DealCount(mode.value, |b.talon|));
        }
      }
      RedealConserves(b1);
      Some((b2, dealt || redealt))
  }
}
