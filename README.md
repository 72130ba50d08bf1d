# Klondike auto-player, modelled in Dafny

This project models the game core of a console Klondike Solitaire program that plays
a dealt game by itself. The core exists in two revisions:

- the newer one under `SolitaireRun/src/com/svi/solitaire/`;
- the older one under `solitaire/`.

Both revisions share the same building blocks:

- cards (rank, suit, face-up flag);
- the standard 52-card deck in suit-major order;
- deterministic deck orderings: unshuffle, in-Faro and out-Faro;
- a turn-mode handler whose mode (Turn 1 or Turn 3) may be set only once;
- a game state with seven tableau columns, four foundation piles, a talon, a waste pile,
  a move counter and a talon-pass counter.

The two revisions differ in how `autoPlayGame` plays a cycle:

- The newer revision moves whole face-up runs between the tail ends of columns. It moves
  tails to the foundation piles of their own suit, and plays the talon's last card.
- The older revision moves single head cards. It plays the head of the talon, and puts
  foundation cards on the first pile that accepts them.

Both revisions then deal one or three talon cards to the waste. When the talon is empty
they redeal the waste at most twice, and then check for a win or a stall.

Modules:

- `Ranks`, `Suits`, `Cards`: the value types and their orderings and colours.
- `Decks`: `DeckInitializer` and the standard deck.
- `TurnModes`: the `TurnModeHandler` class and the set-once rule.
- `Shuffles`: unshuffle and the two Faro shuffles.
- `MovementRules`: the newer `CardMovementHandler`. A foundation pile is indexed by the
  card's suit. The movable run is the face-up tail that getMovableSequence builds: a
  face-down card, or a face-up card that does not continue the previous face-up card,
  empties it, so a column ending in such a card has an empty run.
- `LegacyMovementRules`: the older `CardMovementHandler`.
- `Boards`: the whole-table value `Board`. It covers reset, deal, talon-to-waste dealing
  and redeal, card conservation (a multiset of card identities) and sequence reversal.
- `Engine`: one cycle of the newer `autoPlayGame`, as functions on `Board`.
- `LegacyEngine`: the same for the older `autoPlayGame`.
- `Game`: the `GameState` class. Its fields are reassigned by methods that are each
  proved equal to the matching `Engine` or `LegacyEngine` function. The older revision's
  operations carry a `Legacy` prefix.

Deques are sequences whose head (`peek`/`push`/`pop`) is index 0. Their tail
(`peekLast`/`addLast`/`pollLast`) is the last index. The newer revision deals each column
with `add`, so a column's top card is its last element. Both engines keep that layout.

## Model

| member | source | states |
|---|---|---|
| Ranks.Ordinal | SolitaireRun/src/com/svi/solitaire/vo/Rank.java:7-20 | the thirteen ranks have the ordinals 0..12 in declaration order |
| Ranks.FromOrdinal | SolitaireRun/src/com/svi/solitaire/vo/Rank.java:7-20 | every ordinal below 13 names the rank with that ordinal |
| Ranks.Value | SolitaireRun/src/com/svi/solitaire/vo/Rank.java:53-55 | getValue; Ranks.ValueIsOrdinalPlusOne states it is the ordinal + 1 |
| Ranks.IsOneRankLower | SolitaireRun/src/com/svi/solitaire/vo/Rank.java:64-66 | isOneRankLower by value; Ranks.IsOneRankLowerByOrdinal states its meaning |
| Ranks.ValueIsOrdinalPlusOne | SolitaireRun/src/com/svi/solitaire/vo/Rank.java:8-20 | getValue is ordinal + 1, so it lies in 1..13 (Ace 1, King 13) |
| Ranks.OrdinalRoundTrip | SolitaireRun/src/com/svi/solitaire/vo/Rank.java:7-20 | FromOrdinal inverts Ordinal |
| Ranks.OrdinalInjective | SolitaireRun/src/com/svi/solitaire/vo/Rank.java:7-20 | distinct ranks have distinct ordinals |
| Ranks.IsOneRankLowerByOrdinal | SolitaireRun/src/com/svi/solitaire/vo/Rank.java:64-66 | isOneRankLower (by value) holds exactly when the ordinals differ by one |
| Ranks.NoRankBelowAceOrAboveKing | SolitaireRun/src/com/svi/solitaire/vo/Rank.java:64-66 | nothing is one rank lower than an Ace, and a King is one rank lower than nothing |
| Ranks.SymbolsDistinct | SolitaireRun/src/com/svi/solitaire/vo/Rank.java:8-20 | distinct ranks print with distinct symbols |
| Ranks.Symbol | SolitaireRun/src/com/svi/solitaire/vo/Rank.java:44-46 | getSymbol; Ranks.SymbolsDistinct states that no two ranks share a symbol |
| Suits.Ordinal | SolitaireRun/src/com/svi/solitaire/vo/Suit.java:12-27 | Hearts, Diamonds, Clubs and Spades have the ordinals 0..3, which also index the foundation |
| Suits.FromOrdinal | SolitaireRun/src/com/svi/solitaire/vo/Suit.java:12-27 | every ordinal below 4 names the suit with that ordinal |
| Suits.ColorOf | SolitaireRun/src/com/svi/solitaire/vo/Suit.java:57-59 | getColor; Suits.ColorBySuit states which suits are red and which black |
| Suits.ColorBySuit | SolitaireRun/src/com/svi/solitaire/vo/Suit.java:12-27 | Hearts and Diamonds are red; Clubs and Spades are black, in both directions |
| Suits.OrdinalRoundTrip | SolitaireRun/src/com/svi/solitaire/vo/Suit.java:12-27 | FromOrdinal inverts Ordinal |
| Suits.OrdinalInjective | SolitaireRun/src/com/svi/solitaire/vo/Suit.java:12-27 | distinct suits have distinct ordinals |
| Suits.SymbolsDistinct | SolitaireRun/src/com/svi/solitaire/vo/Suit.java:12-27 | distinct suits print with distinct symbols |
| Suits.Symbol | SolitaireRun/src/com/svi/solitaire/vo/Suit.java:48-50 | getSymbol; Suits.SymbolsDistinct states that no two suits share a symbol |
| Cards.NewCard | SolitaireRun/src/com/svi/solitaire/vo/Card.java:25-29 | a new card has the given rank and suit and is face-down |
| Cards.SetFaceUp | SolitaireRun/src/com/svi/solitaire/vo/Card.java:63-65 | setFaceUp changes only the flag, never the card's identity |
| Cards.RankValue | SolitaireRun/src/com/svi/solitaire/vo/Card.java:85-87 | getRankValue; Cards.RankValueIsOrdinalPlusOne states its value |
| Cards.IsRed | SolitaireRun/src/com/svi/solitaire/vo/Card.java:94-96 | isRed; Cards.RedXorBlack states it holds exactly for Hearts and Diamonds |
| Cards.IsBlack | SolitaireRun/src/com/svi/solitaire/vo/Card.java:103-105 | isBlack; Cards.RedXorBlack states it holds exactly when isRed does not |
| Cards.CanBePlacedOn | SolitaireRun/src/com/svi/solitaire/vo/Card.java:114-118 | canBePlacedOn; Cards.CanBePlacedOnMeaning and the lemmas after it state its meaning |
| Cards.RankValueIsOrdinalPlusOne | SolitaireRun/src/com/svi/solitaire/vo/Card.java:85-87 | getRankValue is the rank's ordinal + 1 |
| Cards.RedXorBlack | SolitaireRun/src/com/svi/solitaire/vo/Card.java:94-105 | every card is exactly one of red and black, and isRed/isBlack agree with the suit's colour |
| Cards.CanBePlacedOnMeaning | SolitaireRun/src/com/svi/solitaire/vo/Card.java:114-118 | canBePlacedOn holds exactly when the card is one rank lower and of the other colour |
| Cards.CanBePlacedOnIrreflexive | SolitaireRun/src/com/svi/solitaire/vo/Card.java:114-118 | a card never goes on a card of its own rank |
| Cards.CanBePlacedOnAsymmetric | SolitaireRun/src/com/svi/solitaire/vo/Card.java:114-118 | if a goes on b then b does not go on a |
| Cards.CanBePlacedOnIgnoresFlag | SolitaireRun/src/com/svi/solitaire/vo/Card.java:114-118 | placement does not depend on either card's face-up flag |
| Cards.DeckOrder | SolitaireRun/src/com/svi/solitaire/logic/ShuffleManager.java:28-33 | the unshuffle key of a card is below 52 |
| Cards.DeckOrderIsLexicographic | SolitaireRun/src/com/svi/solitaire/logic/ShuffleManager.java:28-33 | the key orders by suit first, then by rank, as the comparator does; equal keys mean the same card |
| Decks.DeckInitializer.constructor | SolitaireRun/src/com/svi/solitaire/logic/DeckInitializer.java:37-44 | the deck is Decks.StandardDeck: suit by suit, Ace to King, all face-down |
| Decks.DeckInitializer.GetDeck | SolitaireRun/src/com/svi/solitaire/logic/DeckInitializer.java:51-53 | returns the stored deck |
| Decks.StandardDeck | SolitaireRun/src/com/svi/solitaire/logic/DeckInitializer.java:37-44 | the 52 cards in suit-major order; Decks.StandardDeckLayout, StandardDeckOrder and StandardDeckHasEachCardOnce state its contents |
| Decks.StandardDeckLayout | SolitaireRun/src/com/svi/solitaire/logic/DeckInitializer.java:37-44 | the deck has 52 cards, and position 13·s + r holds rank r of suit s, face-down |
| Decks.StandardDeckOrder | SolitaireRun/src/com/svi/solitaire/logic/DeckInitializer.java:37-44 | the card at position i has unshuffle key i |
| Decks.StandardDeckHasEachCardOnce | SolitaireRun/src/com/svi/solitaire/logic/DeckInitializer.java:37-44 | every rank and suit pair occurs in the deck, at exactly one position |
| TurnModes.ModeFor | SolitaireRun/src/com/svi/solitaire/logic/TurnModeHandler.java:19-41 | only the integers 1 and 3 name a mode, and the mode's getMode returns that integer |
| TurnModes.TurnMode.Mode | SolitaireRun/src/com/svi/solitaire/logic/TurnModeHandler.java:39-41 | getMode: 1 for TURN_1 and 3 for TURN_3; TurnModes.ModeFor states that it maps back to the mode |
| TurnModes.SetTurnModeEffect | SolitaireRun/src/com/svi/solitaire/logic/TurnModeHandler.java:61-76 | a set mode is kept; an unset mode takes 1 or 3; any other value is an IllegalArgument failure that leaves the mode unset |
| TurnModes.SetOnce | SolitaireRun/src/com/svi/solitaire/logic/TurnModeHandler.java:61-65 | once a mode is set, no sequence of later calls changes it |
| TurnModes.FirstValidValueWins | SolitaireRun/src/com/svi/solitaire/logic/TurnModeHandler.java:61-76 | after rejected values, the first 1 or 3 fixes the mode for good |
| TurnModes.TurnModeHandler.constructor | SolitaireRun/src/com/svi/solitaire/logic/TurnModeHandler.java:44-52 | a new handler has no mode |
| TurnModes.TurnModeHandler.SetTurnMode | SolitaireRun/src/com/svi/solitaire/logic/TurnModeHandler.java:61-76 | the new mode and the outcome are SetTurnModeEffect of the old mode |
| TurnModes.TurnModeHandler.GetTurnMode | SolitaireRun/src/com/svi/solitaire/logic/TurnModeHandler.java:84-89 | fails with IllegalState when unset, otherwise returns the mode |
| TurnModes.TurnModeHandler.GetTurnModeAsInt | SolitaireRun/src/com/svi/solitaire/logic/TurnModeHandler.java:97-102 | fails with IllegalState when unset, otherwise returns 1 or 3, which maps back to the mode |
| TurnModes.TurnModeHandler.LegacyGetTurnModeAsInt | solitaire/logic/TurnModeHandler.java:62-64 | returns 1 or 3 and maps back to the mode; its caller must have set a mode |
| MovementRules.ValidateDeck | SolitaireRun/src/com/svi/solitaire/logic/CardMovementHandler.java:23-30 | a null or empty deck is an IllegalArgument error; 1..51 cards is an IllegalState error; 52 or more passes; each in both directions |
| MovementRules.ValidateCardDistribution | SolitaireRun/src/com/svi/solitaire/logic/CardMovementHandler.java:38-42 | passes exactly for a present card; a null card is the NullCard error |
| MovementRules.FoundationAccepts | SolitaireRun/src/com/svi/solitaire/logic/CardMovementHandler.java:53-65 | the acceptance test inside addToFoundation; MovementRules.AddToFoundation states it succeeds exactly when this holds |
| MovementRules.AddToFoundation | SolitaireRun/src/com/svi/solitaire/logic/CardMovementHandler.java:52-68 | it succeeds exactly when the card is an Ace or continues the head of its suit's pile; then the card becomes that pile's head and no other pile changes |
| MovementRules.AddToFoundationKeepsSuits | SolitaireRun/src/com/svi/solitaire/logic/CardMovementHandler.java:52-68 | pile i only ever holds cards of suit i |
| MovementRules.AddToFoundationKeepsRuns | SolitaireRun/src/com/svi/solitaire/logic/CardMovementHandler.java:52-68 | if the card is not already on the foundation, every pile stays an ascending run from its Ace |
| MovementRules.ValidateGameWon | SolitaireRun/src/com/svi/solitaire/logic/CardMovementHandler.java:76-83 | won exactly when every pile holds 13 cards |
| MovementRules.ValidateEmptyTableauColumnMove | SolitaireRun/src/com/svi/solitaire/logic/CardMovementHandler.java:107-109 | only a King goes into an empty column; used by MovementRules.AcceptsOnHead |
| MovementRules.AcceptsOnHead | SolitaireRun/src/com/svi/solitaire/logic/CardMovementHandler.java:119-132 | the per-column test of validateTableauMove; MovementRules.ValidateTableauMove states it holds for some column exactly when that method answers true |
| MovementRules.ValidateTableauMove | SolitaireRun/src/com/svi/solitaire/logic/CardMovementHandler.java:118-135 | true exactly when some column takes the card on its head: an empty column takes a King, otherwise a card one rank lower of the other colour |
| MovementRules.ValidateTalonMove | SolitaireRun/src/com/svi/solitaire/logic/CardMovementHandler.java:93-98 | true exactly when the foundation or a column takes the card; a foundation that takes it has already been changed by the call |
| MovementRules.RunStart | SolitaireRun/src/com/svi/solitaire/logic/CardMovementHandler.java:144-166 | the start of the longest joined stretch ending at a given position: every card in it continues its predecessor, and the card before it does not |
| MovementRules.ContinuesRun | SolitaireRun/src/com/svi/solitaire/logic/CardMovementHandler.java:154-156 | getMovableSequence's comparison: one rank lower than the previous face-up card and of the other colour; MovementRules.MovableRunIsOrdered states it between neighbours of the run |
| MovementRules.LastFaceUp | SolitaireRun/src/com/svi/solitaire/logic/CardMovementHandler.java:146-162 | previousCard after a prefix: the last face-up card of it, which is a face-up card of that prefix; MovementRules.GetMovableSequence keeps previousCard equal to it |
| MovementRules.Joins | SolitaireRun/src/com/svi/solitaire/logic/CardMovementHandler.java:148-160 | the card is face-up and extends previousCard, so the loop appends it rather than clearing; MovementRules.RunStart states the run is the longest tail of such cards |
| MovementRules.MovableRun | SolitaireRun/src/com/svi/solitaire/logic/CardMovementHandler.java:144-166 | the column from RunStart on; MovementRules.MovableRunIsSuffix, MovableRunIsOrdered and MovableRunPlacesOnPrevious state its shape |
| MovementRules.MovableRunIsSuffix | SolitaireRun/src/com/svi/solitaire/logic/CardMovementHandler.java:144-166 | the movable sequence is a tail of the column; it is empty when the last card is face-down or the column is empty |
| MovementRules.MovableRunIsOrdered | SolitaireRun/src/com/svi/solitaire/logic/CardMovementHandler.java:144-166 | the movable sequence is all face-up, and each card is one rank lower than, and the other colour of, its predecessor |
| MovementRules.MovableRunPlacesOnPrevious | SolitaireRun/src/com/svi/solitaire/logic/CardMovementHandler.java:144-166 | each card of the movable sequence canBePlacedOn the card before it |
| MovementRules.MovableRunOfDealtColumn | SolitaireRun/src/com/svi/solitaire/logic/CardMovementHandler.java:144-166 | in a freshly dealt column the movable sequence is the single face-up card |
| MovementRules.GetMovableSequence | SolitaireRun/src/com/svi/solitaire/logic/CardMovementHandler.java:144-166 | the loop with its clearing and appending computes exactly MovementRules.MovableRun, the column from RunStart on |
| LegacyMovementRules.FirstTakingPile | solitaire/logic/CardMovementHandler.java:33-50 | the first pile from a given index whose head takes the card, or -1 exactly when none does |
| LegacyMovementRules.PileTakes | solitaire/logic/CardMovementHandler.java:33-49 | the per-pile test of validateAddToFoundation; LegacyMovementRules.ValidateAddToFoundation states some pile passes it exactly when that method answers true |
| LegacyMovementRules.ValidateAddToFoundation | solitaire/logic/CardMovementHandler.java:32-52 | true exactly when some pile takes the card: an empty pile takes an Ace, a non-empty pile takes the next rank of its head's suit |
| LegacyMovementRules.ValidateTalonMove | solitaire/logic/CardMovementHandler.java:92-100 | true exactly when some foundation pile or some column head takes the card |
| LegacyMovementRules.IsAlternatingColor | solitaire/logic/CardMovementHandler.java:103-108 | true exactly when the two suits have different colours |
| LegacyMovementRules.ValidateTopCardMove | solitaire/logic/CardMovementHandler.java:116-118 | a column with a face-up head; LegacyEngine.FoundationStepTakesTopCard states step A moves only such a head |
| LegacyMovementRules.ValidateTableauToTableauMove | solitaire/logic/CardMovementHandler.java:121-133 | a King on an empty column, else one ordinal lower and alternating colour; LegacyMovementRules.TableauChecksAgree relates it to the other tableau tests |
| LegacyMovementRules.CanMoveToTableau | solitaire/logic/CardMovementHandler.java:135-145 | a King on an empty column, else one value lower and the other colour; LegacyMovementRules.TableauChecksAgree relates it to the other tableau tests |
| LegacyMovementRules.TableauChecksAgree | solitaire/logic/CardMovementHandler.java:121-145 | validateTableauToTableauMove and canMoveToTableau (by value) decide the same thing as the head check of validateTableauMove |
| LegacyMovementRules.FirstTailTakingPile | solitaire/logic/CardMovementHandler.java:163-175 | the first pile from a given index whose tail (peekLast) takes the card, or -1 exactly when none does |
| LegacyMovementRules.TakesOnTail | solitaire/logic/CardMovementHandler.java:165-172 | getFoundationIndex's per-pile test: empty for an Ace, or a tail (peekLast) of the same suit one rank lower; LegacyMovementRules.FirstTailTakingPile states the scan over it |
| LegacyMovementRules.GetFoundationIndex | solitaire/logic/CardMovementHandler.java:162-176 | as written: the lowest pile that is empty for an Ace, or whose tail (peekLast) is the card's predecessor; -1 exactly when there is none |
| LegacyMovementRules.FoundationIndex | solitaire/logic/CardMovementHandler.java:162-176 | corrected: the lowest pile whose head takes the card; it exists exactly when validateAddToFoundation holds |
| LegacyMovementRules.IndexesAgreeOnShortPiles | solitaire/logic/CardMovementHandler.java:162-176 | while every pile has at most one card, the two indexes agree |
| LegacyMovementRules.GetFoundationIndexMissesGrownPile | solitaire/logic/CardMovementHandler.java:168-171 | on a pile holding Two then Ace of Hearts (head first), the Three of Hearts gets index -1, although pile 0 takes it |
| LegacyMovementRules.ShuffleTalon | solitaire/logic/CardMovementHandler.java:154-159 | the talon is rearranged by the given random draws, keeping its size and its cards; identity draws leave it unchanged |
| Shuffles.InFaroShuffle | SolitaireRun/src/com/svi/solitaire/logic/ShuffleManager.java:44-56 | the loop equals Shuffles.InFaro: 2·(n/2) cards, second-half card i, then first-half card i |
| Shuffles.OutFaroShuffle | SolitaireRun/src/com/svi/solitaire/logic/ShuffleManager.java:64-80 | the loop equals Shuffles.OutFaro: 2·(n/2) cards, first-half card i, then second-half card i |
| Shuffles.InFaro | SolitaireRun/src/com/svi/solitaire/logic/ShuffleManager.java:44-56 | the in-Faro order; Shuffles.FaroPermutesEvenDeck and FaroDropsLastOfOddDeck state what it keeps |
| Shuffles.OutFaro | SolitaireRun/src/com/svi/solitaire/logic/ShuffleManager.java:64-80 | the out-Faro order; Shuffles.FaroPermutesEvenDeck, FaroDropsLastOfOddDeck and OutFaroKeepsEnds state what it keeps |
| Shuffles.FaroPermutesEvenDeck | SolitaireRun/src/com/svi/solitaire/logic/ShuffleManager.java:44-80 | on an even deck both Faro shuffles are permutations |
| Shuffles.FaroDropsLastOfOddDeck | SolitaireRun/src/com/svi/solitaire/logic/ShuffleManager.java:44-80 | on an odd deck both Faro shuffles lose the last card and permute the rest |
| Shuffles.OutFaroKeepsEnds | SolitaireRun/src/com/svi/solitaire/logic/ShuffleManager.java:64-80 | on an even deck the out-Faro shuffle keeps the first and last cards in place |
| Shuffles.UnShuffle | SolitaireRun/src/com/svi/solitaire/logic/ShuffleManager.java:24-36 | the result is a permutation of the deck, sorted by suit and then rank |
| Shuffles.UnShuffleKeepsSorted | SolitaireRun/src/com/svi/solitaire/logic/ShuffleManager.java:24-36 | an already sorted deck is returned unchanged |
| Shuffles.UnShuffleIdempotent | SolitaireRun/src/com/svi/solitaire/logic/ShuffleManager.java:24-36 | unshuffling twice equals unshuffling once |
| Shuffles.UnShuffleOfStandardDeck | SolitaireRun/src/com/svi/solitaire/logic/ShuffleManager.java:24-36 | the initial deck is already in unshuffle order |
| Boards.ResetBoard | SolitaireRun/src/com/svi/solitaire/vo/GameState.java:49-65 | seven empty columns, four empty piles, empty talon and waste, and zero counters; no cards |
| Boards.FlipLastUp | SolitaireRun/src/com/svi/solitaire/vo/GameState.java:148-151 | turns only the column's last card face-up, keeping its cards and order |
| Boards.Distribute | SolitaireRun/src/com/svi/solitaire/vo/GameState.java:72-91 | dealing keeps the board's shape |
| Boards.DistributeLayout | SolitaireRun/src/com/svi/solitaire/vo/GameState.java:76-91 | after a reset, column c receives the next c+1 cards and only its last is face-up; the talon is the deck from card 28 on; the foundation stays empty |
| Boards.DistributeConserves | SolitaireRun/src/com/svi/solitaire/vo/GameState.java:72-91 | dealing adds exactly the deck's cards to the board |
| Boards.DealCount | SolitaireRun/src/com/svi/solitaire/vo/GameState.java:251-267 | Turn 1 deals exactly one card from a non-empty talon; Turn 3 deals three, or the whole talon when it holds fewer; never more than the talon holds |
| Boards.DealToWaste | SolitaireRun/src/com/svi/solitaire/vo/GameState.java:251-267 | n cards popped from the talon's head are pushed onto the waste's head one by one (so reversed); moves grows by n; nothing else changes |
| Boards.Redeal | SolitaireRun/src/com/svi/solitaire/vo/GameState.java:336-352 | with an empty waste nothing changes; otherwise the reversed waste is pushed onto the talon, the waste empties and passes grows by one |
| Boards.DealConserves | SolitaireRun/src/com/svi/solitaire/vo/GameState.java:251-267 | dealing neither creates nor loses cards |
| Boards.RedealConserves | SolitaireRun/src/com/svi/solitaire/vo/GameState.java:336-352 | redealing neither creates nor loses cards |
| Boards.DealTwice | SolitaireRun/src/com/svi/solitaire/vo/GameState.java:259-265 | dealing n cards and then m cards is dealing n+m cards |
| Boards.DealAllThenRedealRestoresTalon | SolitaireRun/src/com/svi/solitaire/vo/GameState.java:251-274 | dealing the whole talon and redealing restores the talon in its order and uses up one pass |
| Boards.DealOrRedeal | SolitaireRun/src/com/svi/solitaire/vo/GameState.java:250-274 | after a move this cycle nothing changes. Otherwise a non-empty talon deals DealCount cards to the waste, and if that empties the talon and fewer than 2 passes were made the waste is redealt at once; an empty talon is redealt only from a non-empty waste below 2 passes. It is undefined only when a deal needs the unset turn mode. Tableau, foundation and cards are kept, and the flag is true exactly when the board changed |
| Boards.Reverse | SolitaireRun/src/com/svi/solitaire/vo/GameState.java:339-341 | reversal keeps the length; Boards.ReverseAt gives each element |
| Boards.ReverseAt | SolitaireRun/src/com/svi/solitaire/vo/GameState.java:339-341 | position k of the reversed sequence holds the element at position n - 1 - k |
| Boards.ReverseReverse | SolitaireRun/src/com/svi/solitaire/vo/GameState.java:336-352 | reversing twice gives back the sequence |
| Engine.FirstRunTarget | SolitaireRun/src/com/svi/solitaire/vo/GameState.java:128-187 | the first target column that takes the source's movable run, or 7 exactly when none does |
| Engine.RunMoves | SolitaireRun/src/com/svi/solitaire/vo/GameState.java:129-166 | step 1's move test: a non-empty run, not a King already at the column's first index, onto an empty column only when led by a King, else onto a tail one rank higher of the other colour; Engine.FirstRunTarget and Engine.RunStepMeaning state the scans over it |
| Engine.AcceptsOnTail | SolitaireRun/src/com/svi/solitaire/vo/GameState.java:162-166 | the non-empty target test of steps 1 and 3: the column's last card is one rank higher and of the other colour; Engine.FirstRunTarget and Engine.FirstTalonColumn state the scans over it |
| Engine.FirstRunSource | SolitaireRun/src/com/svi/solitaire/vo/GameState.java:119-194 | the first source column whose run has a target, or 7 exactly when none has |
| Engine.MoveRun | SolitaireRun/src/com/svi/solitaire/vo/GameState.java:143-151 | the run is appended to the target, the source keeps its cards up to the run with its new last card turned up, and other columns are untouched |
| Engine.MoveRunConserves | SolitaireRun/src/com/svi/solitaire/vo/GameState.java:143-176 | moving a run keeps the tableau's cards |
| Engine.RunStep | SolitaireRun/src/com/svi/solitaire/vo/GameState.java:115-195 | step 1 changes nothing when it finds no move, and otherwise counts exactly one move and keeps passes; Engine.RunStepMeaning states when it moves and what it keeps |
| Engine.RunStepMeaning | SolitaireRun/src/com/svi/solitaire/vo/GameState.java:115-195 | step 1 moves exactly when some run has a target (a King at the bottom never moves, and only a King enters an empty column); it touches only the tableau and moves, counts one move, and keeps the cards |
| Engine.RunStepKeepsFaceUpTails | SolitaireRun/src/com/svi/solitaire/vo/GameState.java:115-195 | step 1 keeps every non-empty column's last card face-up |
| Engine.FirstFoundationColumn | SolitaireRun/src/com/svi/solitaire/vo/GameState.java:198-214 | the first column whose face-up last card the foundation takes, or 7 exactly when none |
| Engine.ToFoundationOk | SolitaireRun/src/com/svi/solitaire/vo/GameState.java:199-201 | step 2's per-column test: a face-up last card that addToFoundation accepts; Engine.FirstFoundationColumn states the scan over it |
| Engine.FoundationStep | SolitaireRun/src/com/svi/solitaire/vo/GameState.java:197-214 | step 2 changes nothing when it finds no move, and otherwise counts exactly one move and keeps passes; Engine.FoundationStepMeaning states when it moves and what it keeps |
| Engine.FoundationStepMeaning | SolitaireRun/src/com/svi/solitaire/vo/GameState.java:197-214 | step 2 moves exactly when some column's face-up last card goes to its foundation pile; it keeps talon, waste, passes and the cards, and counts one move |
| Engine.FoundationStepKeepsInvariants | SolitaireRun/src/com/svi/solitaire/vo/GameState.java:197-214 | step 2 keeps columns ending face-up and piles holding one suit each |
| Engine.FirstTalonColumn | SolitaireRun/src/com/svi/solitaire/vo/GameState.java:225-246 | the first column that takes the talon's last card (a King on an empty column, else one rank lower and the other colour), or 7 exactly when none does |
| Engine.TalonColumnOk | SolitaireRun/src/com/svi/solitaire/vo/GameState.java:226-237 | step 3's per-column test: a King for an empty column, else Engine.AcceptsOnTail; Engine.FirstTalonColumn states the scan over it |
| Engine.TalonStep | SolitaireRun/src/com/svi/solitaire/vo/GameState.java:216-248 | step 3 changes nothing when it finds no move, and otherwise counts exactly one move and keeps passes; Engine.TalonStepMeaning states when it moves and what it keeps |
| Engine.TalonStepMeaning | SolitaireRun/src/com/svi/solitaire/vo/GameState.java:216-248 | step 3 moves exactly when the foundation or some column takes the talon's last card; it keeps waste, passes and the cards, and counts one move |
| Engine.TalonStepKeepsInvariants | SolitaireRun/src/com/svi/solitaire/vo/GameState.java:216-248 | step 3 keeps columns ending face-up and piles holding one suit each |
| Engine.TalonStepIfStill | SolitaireRun/src/com/svi/solitaire/vo/GameState.java:216-248 | step 3 runs only if nothing moved and the talon has cards; it keeps the cards, waste and passes and both invariants |
| Engine.HasValidMoves | SolitaireRun/src/com/svi/solitaire/vo/GameState.java:302-331 | corrected: the read-only check: a face-up column tail, or a talon last card that the foundation or some column takes; Engine.FaceUpTailsGiveValidMoves and Engine.HasValidMovesAsWritten relate it to the loop and to the code as written |
| Engine.HasValidMovesAsWritten | SolitaireRun/src/com/svi/solitaire/vo/GameState.java:302-331 | as written: its answer equals the read-only check Engine.HasValidMoves. A false answer leaves the board alone; a changed board comes only from a talon whose last card the foundation takes, and differs only in that card pushed onto its pile |
| Engine.HasValidMovesAsWrittenDuplicates | SolitaireRun/src/com/svi/solitaire/vo/GameState.java:310-314 | when it reaches the talon with a card the foundation takes, it answers true and leaves one more copy of that card on the board |
| Engine.HasValidMovesAsWrittenAddsTalonCard | SolitaireRun/src/com/svi/solitaire/vo/GameState.java:302-331 | any board it changes holds exactly one more copy of the talon's last card, and piles stay one suit each |
| Engine.CounterexampleCycleStart | SolitaireRun/src/com/svi/solitaire/vo/GameState.java:115-248 | on a concrete board step 1 moves nothing, step 2 moves the Two of Hearts and step 3 is skipped, so the stop test then calls hasValidMoves with the Ace of Spades last on the talon |
| Engine.HasValidMovesAsWrittenCounterexample | SolitaireRun/src/com/svi/solitaire/vo/GameState.java:310-314 | on that board hasValidMoves puts the Ace of Spades on pile 3 while it stays on the talon |
| Engine.FaceUpTailsGiveValidMoves | SolitaireRun/src/com/svi/solitaire/vo/GameState.java:303-307 | while columns end face-up, any card on the tableau means hasValidMoves answers true |
| Engine.Cycle | SolitaireRun/src/com/svi/solitaire/vo/GameState.java:109-295 | corrected: one loop pass, with the read-only stop test, keeps the cards, never lowers moves, and raises passes by at most one and only below 2. It ends in Won exactly when every pile is full, unless it stopped on an unset mode; in NoMoves exactly when it is not won and either nothing changed or no valid move is left. It keeps columns ending face-up and piles holding one suit each |
| Engine.CycleAsWritten | SolitaireRun/src/com/svi/solitaire/vo/GameState.java:109-331 | as written: the pass ends as Engine.Cycle does, except that a pass that goes on may also carry the talon's last card pushed onto the foundation by hasValidMoves, one card more than it started with |
| Engine.CycleAsWrittenCounterexample | SolitaireRun/src/com/svi/solitaire/vo/GameState.java:285-314 | from the counterexample board the as-written pass goes on with two Aces of Spades on the board |
| Engine.Play | SolitaireRun/src/com/svi/solitaire/vo/GameState.java:106-295 | the loop for at most fuel passes: no pass left gives CycleLimitReached, otherwise Engine.Pass; Engine.PlayKeeps states what a game keeps and Game.GameState.AutoPlayGame ends exactly as it does |
| Engine.Pass | SolitaireRun/src/com/svi/solitaire/vo/GameState.java:109-294 | one loop body: a pass that goes on leaves the rest to Engine.Play with one pass fewer, any other end is reported; Engine.PassGoesOn and Engine.PassEnds state both cases |
| Engine.PassGoesOn | SolitaireRun/src/com/svi/solitaire/vo/GameState.java:285-293 | a pass that goes on leaves the game's result to the board it made, with one pass fewer |
| Engine.PassEnds | SolitaireRun/src/com/svi/solitaire/vo/GameState.java:276-288 | a pass that ends the game gives its board and the result it reports: Won as a win, TurnModeUnset as an unset mode, NoMoves as stuck |
| Engine.NoPassLeft | SolitaireRun/src/com/svi/solitaire/vo/GameState.java:106-109 | with no pass left the game stops at the bound on the board it has |
| Engine.PlayKeeps | SolitaireRun/src/com/svi/solitaire/vo/GameState.java:106-295 | over a whole game no card is created or lost, moves never decrease, passes stay at most 2, a game of one pass or more with a mode set reports a win exactly when every pile is full, and face-up tails and single-suit piles are kept |
| Engine.ChainOutcome | SolitaireRun/src/com/svi/solitaire/vo/GameState.java:109-294 | boards met between passes all lead to the first board's result, the last one with the passes still left |
| Engine.ChainExtend | SolitaireRun/src/com/svi/solitaire/vo/GameState.java:109-294 | a board whose result with one pass fewer equals the last board's extends the chain of boards met between passes |
| Engine.DealtBoardInvariants | SolitaireRun/src/com/svi/solitaire/vo/GameState.java:72-91 | a freshly dealt board has every column ending face-up and an empty (so suit-indexed) foundation |
| LegacyEngine.PushFrom | solitaire/vo/GameState.java:240-252 | from pile i, the card is pushed onto the first pile that takes it, or nothing changes exactly when none does |
| LegacyEngine.AddToFoundation | solitaire/vo/GameState.java:235-254 | false for a null card. Otherwise it succeeds exactly when validateAddToFoundation does, and the card becomes the head of the pile FoundationIndex names, every other pile unchanged |
| LegacyEngine.AddToFoundationKeepsRuns | solitaire/vo/GameState.java:235-254 | whatever card it is given, every pile stays an ascending same-suit run from an Ace |
| LegacyEngine.AceOnlyOnEmptyPile | solitaire/vo/GameState.java:240-243 | on ascending piles an accepted Ace always lands on an empty pile |
| LegacyEngine.FirstHeadToFoundation | solitaire/vo/GameState.java:99-112 | the first column whose face-up head the foundation takes, or 7 exactly when none does |
| LegacyEngine.HeadToFoundationOk | solitaire/vo/GameState.java:100-103 | step A's per-column test: a face-up head that addToFoundation accepts; LegacyEngine.FirstHeadToFoundation states the scan over it |
| LegacyEngine.FoundationStepMeaning | solitaire/vo/GameState.java:98-112 | step A moves exactly when some column's face-up head goes to the foundation; it keeps talon, waste, passes, the cards and ascending piles, and counts one move |
| LegacyEngine.FoundationStep | solitaire/vo/GameState.java:98-112 | step A changes nothing when it finds no move, and otherwise counts exactly one move and keeps passes; LegacyEngine.FoundationStepMeaning states when it moves and what it keeps |
| LegacyEngine.FoundationStepTakesTopCard | solitaire/vo/GameState.java:98-112 | step A moves exactly when some column passes validateTopCardMove and its head passes validateAddToFoundation, and then that column loses just its head |
| LegacyEngine.FirstHeadTarget | solitaire/vo/GameState.java:118-128 | the first other column canMoveToTableau allows for the source head, or 7 exactly when none |
| LegacyEngine.HeadMoves | solitaire/vo/GameState.java:118-128 | step B's move test: another column that canMoveToTableau allows for the source head; LegacyEngine.FirstHeadTarget and LegacyEngine.ColumnStepMeaning state the scans over it |
| LegacyEngine.FirstHeadSource | solitaire/vo/GameState.java:115-131 | the first non-empty column whose head has a target, or 7 exactly when none has |
| LegacyEngine.FirstNonEmpty | solitaire/vo/GameState.java:115-116 | the first non-empty column from a given index, every column before it empty (the source step B tries after a step A move) |
| LegacyEngine.HeadSource | solitaire/vo/GameState.java:115-131 | the source step B uses has a target, if it is a column at all |
| LegacyEngine.MoveHead | solitaire/vo/GameState.java:120-121 | the source's head is popped and pushed face-up onto the target's head; other columns are untouched |
| LegacyEngine.MoveHeadConserves | solitaire/vo/GameState.java:120-121 | moving a head card keeps the tableau's cards |
| LegacyEngine.ColumnStepMeaning | solitaire/vo/GameState.java:114-131 | step B moves exactly when some head card has a target; after a step A move only the first non-empty column is tried. It keeps foundation, talon, waste and the cards |
| LegacyEngine.ColumnStep | solitaire/vo/GameState.java:114-131 | step B changes nothing when it finds no move, and otherwise counts exactly one move and keeps passes; LegacyEngine.ColumnStepMeaning states when it moves and what it keeps |
| LegacyEngine.FirstTalonColumn | solitaire/vo/GameState.java:143-166 | the first column whose head takes the talon's head card, or 7 exactly when none does |
| LegacyEngine.TalonStepMeaning | solitaire/vo/GameState.java:133-168 | step C moves exactly when validateTalonMove holds for the talon's head; it keeps waste, passes, the cards and ascending piles |
| LegacyEngine.TalonStep | solitaire/vo/GameState.java:133-168 | step C changes nothing when it finds no move, and otherwise counts exactly one move and keeps passes; LegacyEngine.TalonStepMeaning states when it moves and what it keeps |
| LegacyEngine.TalonStepIfStill | solitaire/vo/GameState.java:133-168 | step C runs only if nothing moved and the talon has cards, and changes nothing when it fails |
| LegacyEngine.Cycle | solitaire/vo/GameState.java:92-212 | one loop pass keeps the cards, never lowers moves, and raises passes by at most one and only below 2. It ends in Won exactly when every pile is full, and in NoMoves exactly when it is not won and the board is unchanged. Ascending piles stay ascending |
| LegacyEngine.Play | solitaire/vo/GameState.java:89-213 | the older loop for at most fuel passes: no pass left gives CycleLimitReached, otherwise LegacyEngine.Pass; LegacyEngine.PlayKeeps and LegacyEngine.PlayReportsWin state what a game keeps and Game.GameState.LegacyAutoPlayGame ends exactly as it does |
| LegacyEngine.Pass | solitaire/vo/GameState.java:92-212 | one older loop body: a pass that goes on leaves the rest to LegacyEngine.Play with one pass fewer, any other end is reported |
| LegacyEngine.PassGoesOn | solitaire/vo/GameState.java:203-211 | a pass that goes on leaves the game's result to the board it made, with one pass fewer |
| LegacyEngine.PassEnds | solitaire/vo/GameState.java:196-206 | a pass that ends the game gives its board and the result it reports |
| LegacyEngine.NoPassLeft | solitaire/vo/GameState.java:89-92 | with no pass left the game stops at the bound on the board it has |
| LegacyEngine.OutcomeKept | solitaire/vo/GameState.java:89-213 | over a whole game no card is created or lost, moves never decrease, passes stay at most 2 and ascending piles stay ascending (LegacyEngine.Kept), by induction on the passes |
| LegacyEngine.PassEndsKept | solitaire/vo/GameState.java:196-206 | a pass that ends the game keeps all of LegacyEngine.Kept |
| LegacyEngine.PassGoesOnKept | solitaire/vo/GameState.java:203-211 | a pass that goes on, followed by a rest of the game that keeps LegacyEngine.Kept, keeps it |
| LegacyEngine.PlayKeeps | solitaire/vo/GameState.java:89-213 | the same of LegacyEngine.Play itself: the cards, the move counter, at most two redeals and ascending piles are kept |
| LegacyEngine.OutcomeReports | solitaire/vo/GameState.java:89-213 | a game of one pass or more reports a win exactly when every pile is full, unless the mode is unset (LegacyEngine.WinReported), by induction on the passes |
| LegacyEngine.PassEndsReports | solitaire/vo/GameState.java:196-206 | a pass that ends the game reports a win exactly when Cycle found one |
| LegacyEngine.PassGoesOnReports | solitaire/vo/GameState.java:203-211 | a pass that goes on has not won, so the game reports well whether the bound or the rest of the game ends it |
| LegacyEngine.PlayReportsWin | solitaire/vo/GameState.java:196-206 | the same of LegacyEngine.Play itself: with one pass or more and a mode set, the result is GameWon exactly when every pile holds 13 cards |
| LegacyEngine.ChainOutcome | solitaire/vo/GameState.java:92-212 | boards met between passes all lead to the first board's result, the last one with the passes still left |
| LegacyEngine.ChainExtend | solitaire/vo/GameState.java:92-212 | a board whose result with one pass fewer equals the last board's extends the chain of boards met between passes |
| LegacyEngine.LoneKingNoFoundationMove | solitaire/vo/GameState.java:98-112 | on a board whose only card is a face-up King, step A never moves |
| LegacyEngine.LoneKingColumnMoves | solitaire/vo/GameState.java:114-131 | step B moves that lone King to the next empty column, and back again on the next pass |
| LegacyEngine.LoneKingFirstCycle | solitaire/vo/GameState.java:92-212 | the first pass moves the King and continues |
| LegacyEngine.LoneKingSecondCycle | solitaire/vo/GameState.java:92-212 | the second pass moves it back and continues |
| LegacyEngine.LoneKingOscillates | solitaire/vo/GameState.java:89-213 | two passes return the lone-King board to itself with two more moves, so the loop never ends |
| LegacyEngine.LoneKingPlayStep | solitaire/vo/GameState.java:92-212 | from the lone King the game's result is that of the King moved one column over, one pass later |
| LegacyEngine.KingMovedPlayStep | solitaire/vo/GameState.java:92-212 | from the moved King the game's result is that of the lone King two moves on, one pass later |
| LegacyEngine.LoneKingTwoSteps | solitaire/vo/GameState.java:89-213 | two passes bring the game back to the lone King with two more moves and two passes fewer |
| LegacyEngine.LoneKingRunsOut | solitaire/vo/GameState.java:89-213 | from the lone King every pass budget is used up: the result is always CycleLimitReached, by induction on the passes |
| LegacyEngine.LoneKingNeverStops | solitaire/vo/GameState.java:89-213 | the same of LegacyEngine.Play: the older loop never ends a lone-King game of its own, so with no bound it would not terminate |
| Game.GameState.constructor | SolitaireRun/src/com/svi/solitaire/vo/GameState.java:30-35 | a new game is the reset board with a fresh handler that has no turn mode |
| Game.GameState.SetTurnMode | SolitaireRun/src/com/svi/solitaire/vo/GameState.java:42-44 | delegates to the handler with the set-once effect |
| Game.GameState.ResetGameState | SolitaireRun/src/com/svi/solitaire/vo/GameState.java:49-65 | the fields become the reset board |
| Game.GameState.DistributeCards | SolitaireRun/src/com/svi/solitaire/vo/GameState.java:72-91 | a deck validateDeck rejects leaves the board alone, with that error; otherwise the board becomes Distribute of the old board |
| Game.GameState.DealCards | SolitaireRun/src/com/svi/solitaire/vo/GameState.java:251-267 | the pop-and-push loop deals DealCount cards to the waste |
| Game.GameState.RedealTalon | SolitaireRun/src/com/svi/solitaire/vo/GameState.java:336-352 | the pop-and-push loop makes the board Redeal of the old board |
| Game.GameState.DealOrRedealTalon | SolitaireRun/src/com/svi/solitaire/vo/GameState.java:250-274 | the deal-or-redeal tail of a cycle does what DealOrRedeal says, and fails without change exactly when it needs an unset mode |
| Game.GameState.FindRunMove | SolitaireRun/src/com/svi/solitaire/vo/GameState.java:119-194 | the nested loops find the first source with a movable run and that run's first target |
| Game.GameState.TransferRun | SolitaireRun/src/com/svi/solitaire/vo/GameState.java:143-151 | the remove/addLast loop and the flip leave the source without its run (last card turned up) and the target with the run appended |
| Game.GameState.MoveSequence | SolitaireRun/src/com/svi/solitaire/vo/GameState.java:115-195 | the new board and the flag are those of Engine.RunStep |
| Game.GameState.MoveToFoundation | SolitaireRun/src/com/svi/solitaire/vo/GameState.java:197-214 | the new board and the flag are those of Engine.FoundationStep |
| Game.GameState.MoveFromTalon | SolitaireRun/src/com/svi/solitaire/vo/GameState.java:216-248 | the new board and the flag are those of Engine.TalonStep |
| Game.GameState.HasValidMoves | SolitaireRun/src/com/svi/solitaire/vo/GameState.java:302-331 | corrected: answers the read-only check Engine.HasValidMoves and changes nothing |
| Game.GameState.PlayCycle | SolitaireRun/src/com/svi/solitaire/vo/GameState.java:109-295 | corrected: one loop pass leaves the board and end of Engine.Cycle |
| Game.GameState.AutoPlayGame | SolitaireRun/src/com/svi/solitaire/vo/GameState.java:106-295 | corrected: the board and the result are exactly those of Engine.Play from the old board, the mode and maxCycles passes; so the cards, the two invariants and passes at most 2 are kept, moves never decrease, and a game stopped with a mode set reports a win exactly when every pile is full |
| Game.GameState.LegacyAddToFoundation | solitaire/vo/GameState.java:235-254 | the scan over piles gives the result and foundation of LegacyEngine.AddToFoundation; nothing else changes |
| Game.GameState.LegacyMoveToFoundation | solitaire/vo/GameState.java:98-112 | the new board and the flag are those of LegacyEngine.FoundationStep |
| Game.GameState.LegacyMoveBetweenColumns | solitaire/vo/GameState.java:114-131 | the new board and the flag are those of LegacyEngine.ColumnStep |
| Game.GameState.LegacyMoveFromTalon | solitaire/vo/GameState.java:133-168 | the new board and the flag are those of LegacyEngine.TalonStep |
| Game.GameState.LegacyPlayCycle | solitaire/vo/GameState.java:92-212 | one loop pass leaves the board and end of LegacyEngine.Cycle |
| Game.GameState.LegacyAutoPlayGame | solitaire/vo/GameState.java:89-213 | the board and the result are exactly those of LegacyEngine.Play from the old board, the mode and maxCycles passes; so the cards and ascending piles are kept, passes stay at most 2, moves never decrease, and a game stopped with a mode set reports a win exactly when every pile is full |
| Game.HandleShuffledDeck | SolitaireRun/src/com/svi/solitaire/logic/ShuffleManager.java:112-115 | hands the deck to distributeCards, with the same error and result |

## Left out

- Console output and rendering are not modelled: printing, logCardMovement, printGameStatus, updateGameState and the CardRenderer calls.
- The shuffle, distribute and play code is the same in both revisions for some members: the two distributeCards, validateDeck, validateCardDistribution, validateGameWon, validateTableauMove, the Card and Suit methods, DeckInitializer, unShuffle, the two Faro shuffles, handleShuffledDeck and redealTalon. These are modelled once and cite the newer file. The older rank enum is not part of this model; the newer Rank is used for both revisions.
- normalShuffle and hardShuffle call Collections.shuffle with java.util.Random. They are not modelled separately. The same shuffle is modelled once, as LegacyMovementRules.ShuffleTalon, with the random draws as a parameter.
- Cards are values, not shared objects. In the source, a card object is aliased between deques, setFaceUp on it shows everywhere, and remove(card) in the run move removes by identity. The model flips cards in place in the pile that holds them, and removes the run by position. The two agree because the run is the column's tail.
- distributeCards consumes the caller's deque with poll. The model reads the deck and leaves the caller's copy alone.
- Boards.Distribute requires at least 28 cards. Its only caller has already passed validateDeck, which demands 52, so the null-card failure of validateCardDistribution during the deal is never reached and is not modelled there.
- Engine.Cycle: the stop test asks the read-only Engine.HasValidMoves, so a pass never pushes the talon's last card onto the foundation as hasValidMoves does (the first row under Findings). The pass as written is Engine.CycleAsWritten.
- Game.GameState.HasValidMoves: does not push the talon's last card onto the foundation; it models the corrected check, and Engine.HasValidMovesAsWritten models the code as written.
- Game.GameState.PlayCycle: follows Engine.Cycle, so its stop test does not push the talon's last card onto the foundation; Engine.CycleAsWritten is the pass as written.
- Game.GameState.AutoPlayGame: its passes follow Engine.Cycle, so the stop test does not push the talon's last card onto the foundation, and the cards are conserved across passes; with the code as written a pass that goes on may add a card (Engine.CycleAsWrittenCounterexample).
- Engine.Cycle: the newer loop carries columns ending face-up and piles holding one suit each across passes, but not that each pile is an ascending run from its Ace. MovementRules.AddToFoundationKeepsRuns needs the card not to be on the foundation already, and the uniqueness of cards that would discharge this is not carried as a loop invariant.
- Game.GameState.AutoPlayGame: the source loop has no bound. The model stops after maxCycles passes and does not promise termination. The older loop in fact need not terminate (LegacyEngine.LoneKingNeverStops).
- Game.GameState.LegacyAutoPlayGame: the same cycle bound as AutoPlayGame.
- Game.GameState.DealCards requires a non-empty talon, as its only caller checks before calling.
- Game.GameState.MoveFromTalon and Game.GameState.LegacyMoveFromTalon require a non-empty talon, as the loop checks before step 3 or step C.
- TurnModes.TurnModeHandler.LegacyGetTurnModeAsInt requires a set mode: the older getTurnModeAsInt then throws a NullPointerException, which is not modelled.
- Exceptions are failure values: ValidateDeck, ValidateCardDistribution, SetTurnMode, GetTurnMode and GetTurnModeAsInt return an error instead of throwing. An unset mode during a deal ends the cycle as TurnModeUnset, and the game as ModeNotSet.
- Integer widths: moves and passesThroughTalon are Java ints but are modelled as unbounded naturals, so the wrap-around of moves after 2^31 - 1 moves (reachable only in a loop that never ends) is not modelled.
- One GameState class carries both revisions' play loops. The older revision's methods carry a Legacy prefix, and their foundation is read through LegacyEngine.Runs instead of suit-indexed piles.
- MovementRules.ValidateTalonMove returns the foundation its addToFoundation call leaves behind, because the newer validateTalonMove has the same side effect as hasValidMoves. Nothing in the core calls it.

## Findings

| source | as written | input that shows it | evidently intended | confidence | as-written member | corrected member |
|---|---|---|---|---|---|---|
| SolitaireRun/src/com/svi/solitaire/vo/GameState.java:310-314 | hasValidMoves asks addToFoundation whether the talon's last card fits. That call pushes the card onto its foundation pile, while the card stays on the talon. | Column 0 holds the face-up Two of Hearts. Pile 0 holds the Ace of Hearts. The talon holds the King of Clubs, then the Ace of Spades. Step 2 moves the Two of Hearts, and the stop test then calls hasValidMoves. That leaves a second Ace of Spades on pile 3. | A read-only check that leaves the board as it was, so that a cycle conserves the cards. | high; not executed | Engine.HasValidMovesAsWritten, Engine.HasValidMovesAsWrittenCounterexample, Engine.CycleAsWritten, Engine.CycleAsWrittenCounterexample | Engine.Cycle (uses the read-only Engine.HasValidMoves), Game.GameState.HasValidMoves |
| solitaire/logic/CardMovementHandler.java:168 | getFoundationIndex compares the card with peekLast, the bottom of the pile, although cards are pushed onto the head. | The foundation is Two then Ace of Hearts (head first), with the other piles empty, and the card is the Three of Hearts. It returns -1, although pile 0 takes the card. | Read the head (peek), as validateAddToFoundation and addToFoundation do. | medium (no caller in the repository); not executed | LegacyMovementRules.GetFoundationIndex, LegacyMovementRules.GetFoundationIndexMissesGrownPile | LegacyMovementRules.FoundationIndex (used by LegacyEngine.AddToFoundation) |
