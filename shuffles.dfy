/**
 * The deterministic reorderings of ShuffleManager.java. Each copies its input into
 * a fresh list and leaves the input alone, which values model directly.
 */
module Shuffles {
  import opened Cards
  import Decks

  /** [a0, b0, a1, b1, ...] for two halves of equal length. */
  function Interleave(a: seq<Card>, b: seq<Card>): (r: seq<Card>)
    requires |a| == |b|
    ensures |r| == 2 * |a|
    decreases |a|
  {
    if a == [] then [] else [a[0], b[0]] + Interleave(a[1..], b[1..])
  }

  lemma {:induction false} InterleaveAt(a: seq<Card>, b: seq<Card>, i: nat)
    requires |a| == |b| && i < |a|
    ensures Interleave(a, b)[2 * i] == a[i]
    ensures Interleave(a, b)[2 * i + 1] == b[i]
    decreases |a|
  {
    if i > 0 {
      InterleaveAt(a[1..], b[1..], i - 1);
    }
  }

  lemma {:induction false} InterleavePermutes(a: seq<Card>, b: seq<Card>)
    requires |a| == |b|
    ensures multiset(Interleave(a, b)) == multiset(a) + multiset(b)
    decreases |a|
  {
    if a != [] {
      InterleavePermutes(a[1..], b[1..]);
      assert a == [a[0]] + a[1..];
      assert b == [b[0]] + b[1..];
    }
  }

  /** The in-faro order: second-half card first, then first-half card, n / 2 times. */
  function InFaro(deck: seq<Card>): seq<Card>
  {
    var middle := |deck| / 2;
    Interleave(deck[middle..2 * middle], deck[..middle])
  }

  /** The out-faro order: first-half card first, then second-half card. */
  function OutFaro(deck: seq<Card>): seq<Card>
  {
    var middle := |deck| / 2;
    Interleave(deck[..middle], deck[middle..2 * middle])
  }

  /** inFaroShuffle(deck): for i < n / 2, out[2i] = in[n/2 + i] and out[2i + 1] = in[i]. */
  method InFaroShuffle(deck: seq<Card>) returns (shuffled: seq<Card>)
    ensures |shuffled| == 2 * (|deck| / 2)
    ensures forall i :: 0 <= i < |deck| / 2 ==> shuffled[2 * i] == deck[|deck| / 2 + i] && shuffled[2 * i + 1] == deck[i]
    ensures shuffled == InFaro(deck)
  {
    var middleIndex := |deck| / 2;
    var firstHalf := deck[..middleIndex];
    var secondHalf := deck[middleIndex..];
    shuffled := [];
    for index := 0 to middleIndex
      invariant |shuffled| == 2 * index
      invariant forall i :: 0 <= i < index ==> shuffled[2 * i] == deck[middleIndex + i] && shuffled[2 * i + 1] == deck[i]
    {
      ghost var before := shuffled;
      shuffled := shuffled + [secondHalf[index]];
      shuffled := shuffled + [firstHalf[index]];
      assert shuffled == before + [deck[middleIndex + index], deck[index]];
    }
    SameInterleaving(shuffled, deck[middleIndex..2 * middleIndex], firstHalf);
  }

  /** outFaroShuffle(deck): for i < n / 2, out[2i] = in[i] and out[2i + 1] = in[n/2 + i]. */
  method OutFaroShuffle(deck: seq<Card>) returns (shuffled: seq<Card>)
    ensures |shuffled| == 2 * (|deck| / 2)
    ensures forall i :: 0 <= i < |deck| / 2 ==> shuffled[2 * i] == deck[i] && shuffled[2 * i + 1] == deck[|deck| / 2 + i]
    ensures shuffled == OutFaro(deck)
  {
    var middleIndex := |deck| / 2;
    var firstHalf := deck[..middleIndex];
    var secondHalf := deck[middleIndex..];
    shuffled := [];
    for firstHalfIndex := 0 to |firstHalf|
      invariant |shuffled| == 2 * firstHalfIndex
      invariant forall i :: 0 <= i < firstHalfIndex ==> shuffled[2 * i] == firstHalf[i] && shuffled[2 * i + 1] == secondHalf[i]
    {
      shuffled := shuffled + [firstHalf[firstHalfIndex]];
      if firstHalfIndex < |secondHalf| {
        shuffled := shuffled + [secondHalf[firstHalfIndex]];
      }
    }
    SameInterleaving(shuffled, firstHalf, deck[middleIndex..2 * middleIndex]);
  }

  /** A sequence that agrees with the interleaving at every even and odd position is the interleaving. */
  lemma SameInterleaving(s: seq<Card>, a: seq<Card>, b: seq<Card>)
    requires |a| == |b| && |s| == 2 * |a|
    requires forall i :: 0 <= i < |a| ==> s[2 * i] == a[i] && s[2 * i + 1] == b[i]
    ensures s == Interleave(a, b)
  {
    forall k | 0 <= k < |s|
      ensures s[k] == Interleave(a, b)[k]
    {
      var i := k / 2;
      InterleaveAt(a, b, i);
      if k % 2 == 0 {
        assert k == 2 * i;
      } else {
        assert k == 2 * i + 1;
      }
    }
  }

  /** Both faro orders are permutations of an even-sized deck. */
  lemma FaroPermutesEvenDeck(deck: seq<Card>)
    requires |deck| % 2 == 0
    ensures |InFaro(deck)| == |deck| && multiset(InFaro(deck)) == multiset(deck)
    ensures |OutFaro(deck)| == |deck| && multiset(OutFaro(deck)) == multiset(deck)
  {
    var middle := |deck| / 2;
    EvenDeckHalves(deck);
    InterleavePermutes(deck[middle..2 * middle], deck[..middle]);
    InterleavePermutes(deck[..middle], deck[middle..2 * middle]);
  }

  lemma EvenDeckHalves(deck: seq<Card>)
    requires |deck| % 2 == 0
    ensures multiset(deck) == multiset(deck[..|deck| / 2]) + multiset(deck[|deck| / 2..2 * (|deck| / 2)])
  {
    var middle := |deck| / 2;
    assert deck[middle..2 * middle] == deck[middle..];
    assert deck == deck[..middle] + deck[middle..];
  }

  /** For an odd-sized deck both faro orders drop the last card and permute the rest. */
  lemma FaroDropsLastOfOddDeck(deck: seq<Card>)
    requires |deck| % 2 == 1
    ensures |InFaro(deck)| == |deck| - 1 && multiset(InFaro(deck)) == multiset(deck[..|deck| - 1])
    ensures |OutFaro(deck)| == |deck| - 1 && multiset(OutFaro(deck)) == multiset(deck[..|deck| - 1])
  {
    var middle := |deck| / 2;
    var kept := deck[..|deck| - 1];
    assert |kept| / 2 == middle;
    assert kept[..middle] == deck[..middle];
    assert kept[middle..2 * middle] == deck[middle..2 * middle];
    assert InFaro(kept) == InFaro(deck);
    assert OutFaro(kept) == OutFaro(deck);
    FaroPermutesEvenDeck(kept);
  }

  /** For an even-sized deck the out-faro keeps the first and the last card in place. */
  lemma OutFaroKeepsEnds(deck: seq<Card>)
    requires |deck| % 2 == 0 && |deck| > 0
    ensures OutFaro(deck)[0] == deck[0]
    ensures OutFaro(deck)[|deck| - 1] == deck[|deck| - 1]
  {
    var middle := |deck| / 2;
    InterleaveAt(deck[..middle], deck[middle..2 * middle], 0);
    InterleaveAt(deck[..middle], deck[middle..2 * middle], middle - 1);
  }

  /** Sorted by (suit ordinal, rank ordinal), the order unShuffle's comparator imposes. */
  predicate SortedByDeckOrder(s: seq<Card>)
  {
    forall i, j :: 0 <= i < j < |s| ==> DeckOrder(s[i]) <= DeckOrder(s[j])
  }

  /** Inserts c before the first card that does not come before it, keeping equal cards in arrival order. */
  function Insert(c: Card, s: seq<Card>): (r: seq<Card>)
    ensures multiset(r) == multiset(s) + multiset{c}
    ensures |r| == |s| + 1
    decreases |s|
  {
    if s == [] then [c]
    else if DeckOrder(c) <= DeckOrder(s[0]) then [c] + s
    else
      assert s == [s[0]] + s[1..];
      [s[0]] + Insert(c, s[1..])
  }

  /** Insert adds no card below a bound that c and every card of s respect. */
  lemma {:induction false} InsertAbove(c: Card, s: seq<Card>, bound: int)
    requires bound <= DeckOrder(c)
    requires forall k :: 0 <= k < |s| ==> bound <= DeckOrder(s[k])
    ensures forall j :: 0 <= j < |Insert(c, s)| ==> bound <= DeckOrder(Insert(c, s)[j])
    decreases |s|
  {
    var r := Insert(c, s);
    if s != [] && DeckOrder(c) > DeckOrder(s[0]) {
      InsertAbove(c, s[1..], bound);
      assert r == [s[0]] + Insert(c, s[1..]);
    } else if s != [] {
      assert r == [c] + s;
    }
  }

  lemma {:induction false} InsertKeepsSorted(c: Card, s: seq<Card>)
    requires SortedByDeckOrder(s)
    ensures SortedByDeckOrder(Insert(c, s))
    decreases |s|
  {
    var r := Insert(c, s);
    if s != [] && DeckOrder(c) > DeckOrder(s[0]) {
      var rest := Insert(c, s[1..]);
      InsertKeepsSorted(c, s[1..]);
      InsertAbove(c, s[1..], DeckOrder(s[0]));
      assert r == [s[0]] + rest;
      forall i, j | 0 <= i < j < |r|
        ensures DeckOrder(r[i]) <= DeckOrder(r[j])
      {
        assert r[j] == rest[j - 1];
        if i > 0 {
          assert r[i] == rest[i - 1];
        }
      }
    } else if s != [] {
      assert r == [c] + s;
      forall i, j | 0 <= i < j < |r|
        ensures DeckOrder(r[i]) <= DeckOrder(r[j])
      {
        assert r[j] == s[j - 1];
        if i > 0 {
          assert r[i] == s[i - 1];
        }
      }
    }
  }

  /**
   * unShuffle(deck): a stable sort by (suit ordinal, rank ordinal), written as an
   * insertion sort; Collections.sort is stable, so both give the same order.
   */
  function UnShuffle(deck: seq<Card>): (sorted: seq<Card>)
    ensures |sorted| == |deck|
    ensures multiset(sorted) == multiset(deck)
    ensures SortedByDeckOrder(sorted)
    decreases |deck|
  {
    if deck == [] then []
    else
      assert deck == [deck[0]] + deck[1..];
      var rest := UnShuffle(deck[1..]);
      InsertKeepsSorted(deck[0], rest);
      Insert(deck[0], rest)
  }

  /** An already sorted deck comes back unchanged. */
  lemma {:induction false} UnShuffleKeepsSorted(deck: seq<Card>)
    requires SortedByDeckOrder(deck)
    ensures UnShuffle(deck) == deck
    decreases |deck|
  {
    if deck != [] {
      UnShuffleKeepsSorted(deck[1..]);
      assert deck == [deck[0]] + deck[1..];
    }
  }

  /** Applying unShuffle twice is the same as applying it once. */
  lemma UnShuffleIdempotent(deck: seq<Card>)
    ensures UnShuffle(UnShuffle(deck)) == UnShuffle(deck)
  {
    UnShuffleKeepsSorted(UnShuffle(deck));
  }

  /** unShuffle restores the order DeckInitializer builds. */
  lemma UnShuffleOfStandardDeck()
    ensures UnShuffle(Decks.StandardDeck()) == Decks.StandardDeck()
  {
    forall i, j | 0 <= i < j < 52
      ensures DeckOrder(Decks.StandardDeck()[i]) <= DeckOrder(Decks.StandardDeck()[j])
    {
      Decks.StandardDeckOrder(i);
      Decks.StandardDeckOrder(j);
    }
    UnShuffleKeepsSorted(Decks.StandardDeck());
  }
}
