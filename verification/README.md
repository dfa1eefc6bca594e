# Poker best-hand evaluator, modelled in Dafny

`poker.py` reads a line of ten card tokens. The first five are the hand and the rest are the deck. It prints the best poker category the player can reach by keeping some hand cards and replacing the others, in order, with cards from the top of the deck.

This project models the evaluation core of that program as pure functions and proves properties about it:

- **`Cards`** (`cards.dfy`): the `VALUE` and `SUIT` symbol tables and the card type. It also holds `Card(token)` as `Parse`, with its `KeyError`/`IndexError` failures as a `Result`, and `str(card)` as `Format`.
- **`Sorting`** (`sorting.dfy`): the ascending sort by value that `is_straight` performs. It is written as insertion sort, with a proof that it is a sorted permutation and that the sorted order is unique.
- **`Classifiers`** (`classifiers.dfy`): `is_flush`, `is_straight`, `is_straight_flush`, `is_identical`, `is_full_house` and `is_two_pairs`. Each one has an independent characterisation by value multiplicities, suits or runs, proved equivalent to it.
- **`Generator`** (`cardsets.dfy`): `get_cardsets`, meaning the 32 keep/replace patterns and the cardset each one builds. It includes the proof that the patterns are exactly the 32 subsets of the hand positions, and `GetCardsets`, the source's loop with its conditional appends and its reversed-copy-and-pop deck fill, proved to build exactly those cardsets.
- **`Evaluator`** (`evaluator.dfy`): `get_best_hand`. It scores each cardset by the strongest category that accepts it, takes the maximum over all cardsets and labels the result. The method `GetBestHand` follows the source's nested loop with its early `break`, and is proved to compute that maximum.
- **`Bounds`** (`bounds.dfy`): upper bounds on what a deal can reach. It bounds how often a value or suit can occur in any cardset by how often the deal supplies it. It gives, per category, the multiplicities the category needs, and it turns "no cardset reaches category `k`" into a bound on the answer.
- **`Examples`** (`examples.dfy`): the nine deals listed in the module header of `poker.py`. For each one, a lemma states the exact text `get_best_hand` returns. For every deal with a category, one pattern's cardset reaches it. The deal's value and suit multiplicities show that no cardset of any pattern goes higher.

Cards are values `Card(v, s)` with `v` in 2..14 (11 = J, 12 = Q, 13 = K, 14 = A) and `s` in 1..4 (C, D, H, S). A hand and a deck are `seq<Card>`. The evaluator requires exactly five hand cards and at least five deck cards. With fewer, the source would fail with an `IndexError` or a `pop` from an empty list. With more than ten tokens, the extras only lengthen the deck, which is harmless.

Points where the code is easy to misread (the model follows the code):

- **The label for score 1.** It is `one-pairs`, as in the `combinations` table at `poker.py:184`. The listed output in the header at `poker.py:38` prints `one-pairs` too.
- **Which deck cards are used.** The reversed copy plus `pop()` at `poker.py:155-157` draws from the *front* of the deck (`deck[0]`, `deck[1]`, ...).
- **The order of kept cards.** They are appended in the order `hand[4]`, `hand[3]`, ..., `hand[0]` (`poker.py:145-154`). No classifier depends on order, and `Evaluator.ScorePermutationInvariant` proves this.
- **Patterns 8 and 16.** Pattern 8 keeps positions {1,2,3,4} and pattern 16 keeps {2,3,4}. This is the reverse of plain binary counting on `i - 1`, but `Generator.PatternsDistinct` and `Generator.PatternsCover` show that the 32 patterns are still all the subsets.

## Model

| member | source | states |
|---|---|---|
| Cards.Parse | poker.py:48-50 | A token yields a card exactly when it has two symbols, the first a key of `VALUE` and the second a key of `SUIT`. The card then carries the looked-up value and suit. A missing symbol and an unknown symbol are told apart, and the error names the first unknown symbol in lookup order (value first). |
| Cards.Format | poker.py:52-55 | A card prints as two symbols that map back, through `VALUE` and `SUIT`, to its value and suit. |
| Cards.SymbolTablesInjective | poker.py:43-44 | The value table maps into 2..14 and the suit table into 1..4, and both can be inverted: every symbol is recovered from its number. This is what the inverted dictionaries at lines 53-54 rely on. |
| Cards.ValueSymbol | poker.py:53-55 | Definition: the inverted value table. The symbol it returns is a key of `VALUE` that maps back to the given value. |
| Cards.SuitSymbol | poker.py:53-55 | Definition: the inverted suit table. The symbol it returns is a key of `SUIT` that maps back to the given suit. |
| Cards.FormatParse | poker.py:48-55 | Printing a parsed card gives back the first two symbols of the token. |
| Cards.ParseFormat | poker.py:48-55 | Parsing a printed card gives back the card. |
| Sorting.SortSorts | poker.py:109 | The sort by value returns a sorted permutation of the values. |
| Sorting.Sort | poker.py:109 | Definition: the ascending sort by value that `sorted(hand, key=lambda x: x.v)` performs, as insertion sort on the values. It keeps the length, and `SortSorts` and `SortedUnique` tie it to any sorted permutation. |
| Sorting.SortedUnique | poker.py:109 | Two sorted sequences with the same multiset are equal, so the result of the sort does not depend on how it is computed. |
| Sorting.InsertSorted | poker.py:109 | Inserting into a sorted sequence keeps it sorted and adds exactly the new element. |
| Classifiers.Identical | poker.py:118-125 | Definition: the values of the value table, in table order, that occur exactly `count` times. |
| Classifiers.HasKind | poker.py:178-184 | Definition: the truth value the selector reads from `is_identical(hand, count)` at lines 178, 182 and 184, which is true when the list is non-empty. |
| Classifiers.IdenticalMembers | poker.py:125 | `is_identical(h, count)` contains exactly the values in 2..14 that occur exactly `count` times among the cards. |
| Classifiers.IdenticalAscending | poker.py:125 | `is_identical` lists its values strictly ascending, following the order of the value table, so each value appears once. |
| Classifiers.HasKindIff | poker.py:125 | The list `is_identical(h, count)` is non-empty, which is what the selector tests, exactly when some value occurs exactly `count` times. |
| Classifiers.IdenticalDisjoint | poker.py:125 | The lists for two different counts share no value. |
| Classifiers.FourOfAKindExcludesOthers | poker.py:125 | In five cards, a value occurring four times leaves the count-2 and count-3 lists empty. |
| Classifiers.IsStraight | poker.py:103-116 | Definition: sort the values, then accept the wheel [2, 3, 4, 5, 14] or values each one above the previous. |
| Classifiers.StraightIff | poker.py:109-116 | `is_straight` holds exactly when the multiset of values is the wheel {2,3,4,5,14} or a run of consecutive values. |
| Classifiers.StraightHasDistinctValues | poker.py:109-116 | A straight holds every value at most once. |
| Classifiers.RepeatedValueNotStraight | poker.py:109-116 | Two cards of equal value anywhere in the cards rule out a straight. |
| Classifiers.StraightExcludesKinds | poker.py:109-125 | A straight yields an empty `is_identical` list for every count of two or more. |
| Classifiers.IsFlush | poker.py:92-101 | Definition: every card has the first card's suit. |
| Classifiers.FlushIff | poker.py:98-101 | The loop that compares every card with the first card's suit accepts exactly when all suits are pairwise equal. |
| Classifiers.IsStraightFlush | poker.py:71-78 | Definition: `IsStraight && IsFlush`, as line 77. |
| Classifiers.StraightFlushIff | poker.py:71-78 | A straight flush holds exactly when the values are the wheel or a run, and all cards share one suit. |
| Classifiers.IsFullHouse | poker.py:80-90 | Definition: both the count-2 and count-3 lists are non-empty, and their first entries differ. |
| Classifiers.FullHouseIff | poker.py:86-90 | `is_full_house` holds exactly when some value occurs three times and some value occurs twice. The check that the first pair value differs from the first three-of-a-kind value always passes. |
| Classifiers.IsTwoPairs | poker.py:127-135 | Definition: the count-2 list has at least two entries. |
| Classifiers.TwoPairsIff | poker.py:133-135 | `is_two_pairs` is truthy exactly when two different values each occur exactly twice. |
| Classifiers.ClassifiersPermutationInvariant | poker.py:98-125 | Reordering the cards changes neither the flush test, nor the straight test, nor any `is_identical` list. |
| Classifiers.ValuesPermutation | poker.py:125 | Reordering the cards reorders their values, with the same multiplicities. |
| Generator.KeptFromExact | poker.py:145-154 | The kept positions are listed highest first, each once, and are exactly the positions the mask selects. |
| Generator.Mask | poker.py:145-154 | Definition: `Mask(i)[p]` is the condition under which pattern `i` appends `hand[p]`, one entry per position. |
| Generator.Cardset | poker.py:144-157 | Definition: one cardset is the kept hand cards from `hand[4]` down to `hand[0]`, then `deck[0]`, `deck[1]`, ... for the remaining slots. |
| Generator.Cardsets | poker.py:142-159 | Definition: the 32 cardsets, where entry `k` is the cardset of pattern `k + 1`. |
| Generator.KeepCards | poker.py:145-154 | The five conditional appends, in source order, produce exactly the hand cards of the positions the mask selects, highest position first. |
| Generator.PickKept | poker.py:145-154 | The kept cards are the hand cards of the set positions, taken from position 4 down to position 0. |
| Generator.GetCardsets | poker.py:142-159 | `get_cardsets` as written builds exactly the 32 cardsets of the definition. It loops `i` over 1..32, appends per the five conditions, then fills from the reversed deck copy. |
| Generator.PatternIsSwappedBinary | poker.py:143-154 | The positions pattern `i` keeps are the binary digits of `i - 1`, position 0 as the high bit, except that patterns 8 and 16 trade places. |
| Generator.PatternsDistinct | poker.py:143-154 | No two of the 32 patterns keep the same set of positions. |
| Generator.PatternsCover | poker.py:143-154 | Every subset of the five hand positions is kept by some pattern. |
| Generator.FirstPatternIsDeck | poker.py:143-157 | Pattern 1 replaces the whole hand, giving the first five deck cards. |
| Generator.LastPatternIsReversedHand | poker.py:143-157 | Pattern 32 keeps the whole hand, last card first. |
| Generator.CardsetsDrawFromDeal | poker.py:143-159 | Every card of every cardset is a hand card or one of the first five deck cards. When those ten cards are all different, no cardset repeats a card. |
| Generator.CardsetNoRepeats | poker.py:144-157 | A single cardset of a deal without repeated cards has no repeated card. |
| Generator.FillFromDeck | poker.py:155-157 | Popping from a reversed copy of the deck appends `deck[0]`, `deck[1]`, ... until five cards are held, and leaves the kept cards in front. |
| Evaluator.Holds | poker.py:177-184 | Definition: entry `k` of the `combinations` table applied to a cardset. |
| Evaluator.CategoryName | poker.py:177-184 | Definition: the label column of the `combinations` table for keys 1..8. No label is "highest-card". |
| Evaluator.Score | poker.py:189-193 | Definition: the strongest category `k` from 8 down to 1 whose entry accepts the cardset, or 0. |
| Evaluator.BestScore | poker.py:186-193 | Definition: the maximum score over the 32 cardsets of the deal. |
| Evaluator.BestHand | poker.py:195-198 | Definition: the text for the best score, "Best hand: highest-card" for 0 and the table label otherwise. |
| Evaluator.ScoreIsStrongest | poker.py:189-193 | The score of a cardset is a category whose classifier accepts it, or 0, and no stronger category accepts it. |
| Evaluator.ScoreZeroIff | poker.py:189-193 | A cardset scores 0 exactly when no category accepts it. |
| Evaluator.RankVerdicts | poker.py:190-193 | The inner loop over the table, keys 8 down to 1, with its `break` raises the best-so-far to the strongest accepted category when that is higher and otherwise leaves it alone. |
| Evaluator.RankCardset | poker.py:190-193 | One pass of the inner loop over a cardset yields the larger of the best-so-far and the cardset's score. |
| Evaluator.GetBestHand | poker.py:186-198 | The selector's loops compute the maximum score over the stored cardsets, 0 when none is accepted, and return the text for that score. |
| Evaluator.BestOfIsStrongest | poker.py:186-198 | The selected score is a category that accepts some cardset, or 0, and no stronger category accepts any cardset. |
| Evaluator.MaxOfBounds | poker.py:186-193 | The running maximum bounds every score and is 0 or one of them. |
| Evaluator.HighestCardText | poker.py:195-198 | The answer reads "highest-card" exactly when the best score is 0. |
| Evaluator.HighestCardIff | poker.py:186-198 | The answer reads "highest-card" exactly when no category accepts any of the 32 cardsets. |
| Evaluator.CategoryNamesDistinct | poker.py:177-184 | Different categories carry different labels, so the answer names the score. |
| Evaluator.CategoryReached | poker.py:186-193 | A category that accepts the cardset of any pattern is a lower bound for the best score. |
| Evaluator.BestAtLeastHand | poker.py:186-193 | The best score is at least the score of the hand as dealt, because pattern 32 keeps it. |
| Evaluator.ScorePermutationInvariant | poker.py:177-184 | Reordering the cards of a cardset does not change its score. |
| Evaluator.HoldsPermutationInvariant | poker.py:177-184 | Reordering the cards does not change the verdict of any entry of the `combinations` table. |
| Bounds.CardsetValueCount | poker.py:143-157 | A value occurs in a cardset as often as among its kept hand cards plus among the deck cards drawn. The kept cards hold it no more often than the whole hand, and no more often than there are kept cards. |
| Bounds.CardsetSuitCount | poker.py:143-157 | The same split for suits: kept hand cards plus drawn deck cards, with the kept part bounded by the whole hand. |
| Bounds.KeptPairBound | poker.py:144-154 | Two different values together occur among the kept cards at most as often as there are kept cards. |
| Bounds.KeptFourBound | poker.py:144-154 | Four different values together occur among the kept cards at most as often as there are kept cards. |
| Bounds.FlushCardDealt | poker.py:92-101 | In a cardset that is a flush, each value present is carried by a dealt card of the flush's suit, from the hand or the first five deck cards. |
| Bounds.FlushNeedsFive | poker.py:92-101 | Five cards pass the flush test only when their first card's suit occurs five times. |
| Bounds.StraightNeedsValues | poker.py:103-116 | Five cards pass the straight test only when they hold every value of the wheel or of some run of five. |
| Bounds.KindsAtMost | poker.py:80-90 | With no value more than `m` times, `is_identical` is empty for each of the counts 2, 3 and 4 that exceeds `m`. With `m` below three there is no full house, and with `m` below two there are no two pairs. |
| Bounds.OneValueRepeated | poker.py:80-90 | When only one value occurs more than once, the cards are neither a full house nor two pairs. |
| Bounds.NoFullHouse | poker.py:80-90 | Without one value three times and another twice, `is_full_house` fails. |
| Bounds.NoTwoPairs | poker.py:127-135 | Without two different values twice each, `is_two_pairs` is falsy. |
| Bounds.NoFlush | poker.py:71-101 | Five cards with no suit five times are neither a flush nor a straight flush. |
| Bounds.NoStraight | poker.py:103-116 | Five cards that hold neither the whole wheel nor any whole run fail the straight test. |
| Bounds.NoStraightBetween | poker.py:103-116 | Three missing values `g1 < g2 < g3`, spaced no more than five apart, with `2 <= g1 <= 5` and `g3 >= 10`, rule out every straight. |
| Bounds.ScoreAtMost | poker.py:177-193 | A cardset that no category above `k` accepts scores at most `k`. |
| Bounds.BestAtMost | poker.py:186-193 | When every one of the 32 cardsets scores at most `k`, so does the answer. |
| Examples.StraightFlushDeal | poker.py:31 | Hand TH JH QC QD QS with deck QH KH AH 2S 6S answers "Best hand: straight-flush". |
| Examples.FourOfAKindDeal | poker.py:32 | Hand 2H 2S 3H 3S 3C with deck 2D 3D 6C 9C TH answers "Best hand: four-of-a-kind". No suit is dealt more than three times, so there is no straight flush. |
| Examples.FullHouseDeal | poker.py:33 | Hand 2H 2S 3H 3S 3C with deck 2D 9C 3D 6C TH answers "Best hand: full-house". Drawing 3D leaves room for only two kept threes, so no value occurs four times. |
| Examples.FlushDeal | poker.py:34 | Hand 2H AD 5H AC 7H with deck AH 6H 9H 4H 3C answers "Best hand: flush". Only the aces repeat, and the hearts dealt hold no run. |
| Examples.StraightDeal | poker.py:35 | Hand AC 2D 9C 3S KD with deck 5S 4D KS AS 4C answers "Best hand: straight". No value occurs three times and no suit five times. |
| Examples.ThreeOfAKindDeal | poker.py:36 | Hand KS AH 2H 3C 4H with deck KC 2C TC 2D AS answers "Best hand: three-of-a-kind". Three twos force a cardset with no other pair, and five, nine and jack are never dealt. |
| Examples.TwoPairsDeal | poker.py:37 | Hand AH 2C 9S AD 3C with deck QH KS JS JD KD answers "Best hand: two-pairs". No value occurs three times, and four, eight and ten are never dealt. |
| Examples.OnePairDeal | poker.py:38 | Hand 6C 9C 8C 2D 7C with deck 2H TC 4C 9S AH answers "Best hand: one-pairs". No cardset holds two pairs or the run six to ten. |
| Examples.HighestCardDeal | poker.py:39 | Hand 3D 5S 2H QD TD with deck 6S KH 9H AD QH answers "Best hand: highest-card": no cardset repeats a value, holds five of a suit or holds a run. |

## Left out

- `main` (poker.py:201-219): the console loop, with its `input()`, `print` and the `KeyError` catch, is I/O. `Cards.Parse` models the failure it catches as a `Result`.
- `print_cardsets` (poker.py:161-170): this is debug printing only.
- `GameManager.__init__`'s whitespace splitting and `GameManager.__str__` (poker.py:59-69): these are tokenising and formatting plumbing. The model takes the hand and deck as `seq<Card>`, and `Cards.Format` covers a single card.
- Python truthiness: the classifiers return `True`, `None` or a list, and the selector only tests their truth value. The model uses `bool`, and a list counts as true when it is non-empty (`Classifiers.HasKind`, `Classifiers.IsTwoPairs`).
- Short input: fewer than five hand or deck cards makes the source raise, so `Generator.Cardsets`, `Evaluator.BestScore` and `Evaluator.BestHand` require `|hand| == 5` and `|deck| >= 5`.
- `self.hand` and `self.deck` not being modified is immediate in the model, which has no mutable state.
