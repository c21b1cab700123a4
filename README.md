# Poker hand evaluator and deck, in Dafny

This project models the core of a small Python poker simulator: the five-card
hand evaluator `Hand.calculate_hand_value` with the `Kind` ranking and hand
comparison (`src/hand.py`), and the cards and deck it deals from (`src/deck.py`).
It proves what the evaluator returns in each of its branches, and that its result
does not depend on the order of the cards. It also proves the ordering laws that
hand comparison relies on, the expected results of the unit tests, and what the
deck operations do to the deck.

Modules:

- `Seqs` (`seqs.dfy`) stands in for the Python built-ins the evaluator uses:
  - `sorted(..., reverse=True)` as `SortDescending`, an insertion sort proved
    to return a descending permutation. `DescendingUnique` proves that this
    order is unique.
  - the key order of a `collections.Counter` as `Dedup`, which keeps each
    element's first occurrence;
  - list comprehensions as `Project`;
  - sums of multiplicities.
- `Decks` (`deck.dfy`) holds the following:
  - `Suit`, `CardName` and `Strength`: the `auto()` numbering TWO = 1 … ACE = 13.
  - `Card` and `Card.Value`.
  - The unshuffled deck `FreshOrder`.
  - `Shuffle`, CPython's Fisher–Yates pass. The random numbers are a
    parameter `draws`.
  - The `Deck` class. Its `cards` field is the Python list `_deck`, used as a
    stack whose top is the end.
- `Hands` (`hand.dfy`) holds the following:
  - `Kind` and `KindValue` (1 … 10).
  - The play `(kind, key)`, and Python's ordering of tuples and lists
    (`PlayGreater`, `ListGreater`).
  - `MostCommon`, which models `Counter.most_common`.
  - `CalculateHandValue`, a branch-by-branch model of `calculate_hand_value`.
  - `DealFive` and the `Hand` class with `Gt` and `Eq`.
- `HandProperties` (`hand_properties.dfy`) states the evaluator's result for
  each number of distinct names, using how often each name occurs. It also
  proves that the result ignores the order of the cards.
- `HandExamples` (`hand_examples.dfy`) proves the result each unit test in
  `tests/test_hand.py` expects.

Notable behaviour of the code, reproduced as written:

- ACE always counts 13, so A-2-3-4-5 is never a straight (`AceIsNeverLow`).
- ROYAL_FLUSH is recognised only by "one suit and lowest value 9 (TEN)".
  With five different names this is exactly the flush TEN–ACE
  (`RoyalFlushIsTenToAce`).
- A hand with a single name repeated five times falls into the last branch.
  A real deck cannot deal such a hand. Five TENs of one suit then count as a
  ROYAL_FLUSH (`OneRankQuirk`).
- The keys of FULL_HOUSE, FOUR_OF_A_KIND and THREE_OF_A_KIND hold only the
  dominant name's value, with no kickers.
- `most_common` lists names of equal count in the order they were first seen.
  The model's definition keeps that order; its contract leaves the tie order open.
  CPython computes it with `sorted(..., key=count, reverse=True)`, or with
  `heapq.nlargest` when given a limit; both are documented to give that result.
  The order matters only in the DOUBLE_PAIR branch, which sorts the two pairs
  again. This is why the evaluator ignores card order
  (`CalculateHandValueIgnoresOrder`).
- `deal_card` on an empty deck assigns `self = Deck()`. This only rebinds a
  local name: the card comes from a new shuffled deck, and the dealer's own
  deck stays empty.
- The code has no hand-size check. The only error on a bad hand size is the
  `IndexError` of an empty list at `src/hand.py:62`.

## Model

| member | source | states |
|---|---|---|
| Decks.Strength | src/deck.py:35-48 | a card name's strength lies in 1..13: 1 exactly for TWO, 9 exactly for TEN, 13 exactly for ACE |
| Decks.StrengthFollowsDeclarationOrder | src/deck.py:35-48 | the strengths number the thirteen names 1, 2, …, 13 in declaration order, so they strictly increase and no two names share one |
| Decks.Card.Value | src/deck.py:19-21 | a card's value lies in 1..13: 1 exactly for a TWO, 9 exactly for a TEN, 13 exactly for an ACE |
| Decks.ValueIsNameStrength | src/deck.py:19-21 | a card's value is its name's strength, the suit plays no part, and two cards have equal values exactly when they have equal names |
| Decks.FreshOrder | src/deck.py:51-53 | the unshuffled deck has 52 cards, and the card at position i has the (i / 13)-th suit and the (i % 13)-th name in declaration order: suits in the outer loop, names in the inner one |
| Decks.FreshDeckHoldsEachCardOnce | src/deck.py:51-53 | the unshuffled deck has 52 cards, holds every (name, suit) pair exactly once and has no duplicates |
| Decks.Shuffle | src/deck.py:54 | the shuffle returns a permutation of its input: same length, same multiset of cards |
| Decks.Deck.constructor | src/deck.py:50-54 | a new deck has 52 cards, each card exactly once, a permutation of the unshuffled order |
| Decks.Deck.Len | src/deck.py:56-57 | `len(deck)` is the number of cards in the list |
| Decks.Deck.At | src/deck.py:59-60 | `deck[i]` is the i-th card, counting from the end for negative i; outside -len..len-1 it is the IndexError (None) |
| Decks.Deck.Pop | src/deck.py:68 | `list.pop()` returns the last card and removes only it; on an empty list it is the IndexError and the list stays empty |
| Decks.Deck.DealCard | src/deck.py:62-68 | on a non-empty deck: returns the top card, removes only it and keeps the rest in order, so `len` drops by one; on an empty deck: the deck stays empty; no duplicates are introduced |
| Decks.Deck.GetInitialCards | src/deck.py:70-72 | with two or more cards: returns [top, next] and removes both; with fewer: the IndexError (None), after the first pop has emptied a one-card deck |
| Hands.KindValue | src/hand.py:11-23 | a kind's value lies in 1..10, 1 exactly for HIGH_CARD and 10 exactly for ROYAL_FLUSH |
| Hands.KindValueFollowsDeclarationOrder | src/hand.py:11-23 | the kinds are numbered 1..10 in declaration order, HIGH_CARD lowest and ROYAL_FLUSH highest, and no two share a value |
| Hands.ListGreater | src/hand.py:47 | Python's `>` on integer lists: at the first position where the lists differ, the list with the larger element is the greater; it never holds between equal lists, always holds when the right list is a proper prefix of the left, and never when the left list is a prefix of the right |
| Hands.PlayGreater | src/hand.py:44-47 | Python's `>` on (kind, key) tuples: a higher kind wins whatever the keys, a lower kind never does, equal kinds are decided by list `>` on the keys, and a play never beats an equal play |
| Hands.ListTrichotomy | src/hand.py:47 | Python list comparison: exactly one of a > b, a == b, b > a holds |
| Hands.ListTransitive | src/hand.py:47 | Python list comparison is transitive |
| Hands.PlayTrichotomy | src/hand.py:44-52 | comparing (kind, key) tuples: exactly one of p > q, p == q, q > p holds |
| Hands.PlayTransitive | src/hand.py:44-47 | comparing (kind, key) tuples is transitive |
| Hands.Hand.Gt | src/hand.py:44-47 | a hand of higher kind beats one of lower kind whatever the keys, one of lower kind never does, between equal kinds the greater key (the larger value at the first difference) wins, and a hand that beats another is not beaten by it |
| Hands.Hand.Eq | src/hand.py:49-52 | two hands are equal exactly when neither beats the other |
| Hands.SortByCount | src/hand.py:67 | `most_common`'s ordering: a permutation of the (name, count) entries, with counts descending |
| Hands.MostCommon | src/hand.py:65-67 | `most_common`: one entry per distinct name, each with its number of occurrences, names pairwise different, counts descending, and every name of the hand listed |
| Hands.UngroupedKind | src/hand.py:106-126 | the kind of the last branch: ROYAL_FLUSH exactly for one suit and lowest value 9; STRAIGHT_FLUSH exactly for one suit, another lowest value and a straight; FLUSH exactly for one suit, another lowest value and no straight; STRAIGHT exactly for several suits and a straight; HIGH_CARD in every other case |
| Hands.CalculateHandValue | src/hand.py:58-130 | the play of five cards: FOUR_OF_A_KIND, FULL_HOUSE and THREE_OF_A_KIND are keyed by one value and DOUBLE_PAIR by three; HIGH_CARD, STRAIGHT, FLUSH, STRAIGHT_FLUSH and ROYAL_FLUSH are keyed by all five card values, highest first |
| Hands.DealFive | src/hand.py:32 | five `deal_card` calls: the five top cards in deal order, removed from the deck; distinct when the deck had no duplicates |
| Hands.Hand.constructor | src/hand.py:31-33 | a new hand holds the five top cards of the deck in deal order, removed from it, and its play is `calculate_hand_value` of them |
| Seqs.SortDescending | src/hand.py:61 | `sorted(values, reverse=True)` is a descending permutation of the values |
| Seqs.DescendingUnique | src/hand.py:61 | two descending arrangements of the same multiset are equal, so the sorted values are determined by the cards' values alone |
| Seqs.Dedup | src/hand.py:64-65 | the counter's keys: each element of the list exactly once, nothing else, no longer than the list |
| HandProperties.NameCounterLength | src/hand.py:75 | `len(name_counter)` is the number of different names among the cards |
| HandProperties.SuitCounterIsOneExactlyForFlush | src/hand.py:111 | `len(suit_counter) == 1` holds exactly when all cards share one suit |
| HandProperties.MostCommonShape | src/hand.py:67-68 | for five cards the counts of `most_common` take one shape per number of names: (5), (4,1) or (3,2), (3,1,1) or (2,2,1), (2,1,1,1), (1,1,1,1,1) |
| HandProperties.TwoRanks | src/hand.py:75-82 | with two names some name occurs at least three times; the play is FOUR_OF_A_KIND if it occurs four times, else FULL_HOUSE, keyed by that name's value alone |
| HandProperties.ThreeRanksTriple | src/hand.py:84-87 | three names, one of them three times: THREE_OF_A_KIND keyed by that name's value alone |
| HandProperties.ThreeRanksTwoPairs | src/hand.py:89-94 | three names, two of them twice: DOUBLE_PAIR keyed by the higher pair, the lower pair, then the odd card |
| HandProperties.FourRanks | src/hand.py:96-104 | four names, one of them twice: PAIR keyed by the pair's value, then the three other values once each, strictly descending |
| HandProperties.GroupedKinds | src/hand.py:75-104 | with two to four names the kind is one of FOUR_OF_A_KIND, FULL_HOUSE, THREE_OF_A_KIND, DOUBLE_PAIR, PAIR |
| HandProperties.StraightIsRun | src/hand.py:107-110 | `{1} == {differences of neighbours}` holds exactly when every value is one more than the next, for two or more values |
| HandProperties.NoRepeatedRank | src/hand.py:106-128 | with five names (or one): the key is all five values descending, and the kind is ROYAL_FLUSH for a flush ending in 9, else STRAIGHT_FLUSH for a flush run, FLUSH for another flush, STRAIGHT for a run, HIGH_CARD otherwise |
| HandProperties.FiveRanksStrict | src/hand.py:106-128 | with five different names the key strictly descends |
| HandProperties.RoyalFlushIsTenToAce | src/hand.py:111-114 | with five different names the kind is ROYAL_FLUSH exactly for a flush keyed [13, 12, 11, 10, 9] |
| HandProperties.OneRankQuirk | src/hand.py:106-128 | one name five times: key five copies of its value, kind ROYAL_FLUSH for five TENs of one suit, FLUSH for another name in one suit, else HIGH_CARD |
| HandProperties.AceIsNeverLow | src/hand.py:107-110 | a hand holding an ACE and a TWO is never STRAIGHT, STRAIGHT_FLUSH or ROYAL_FLUSH |
| HandProperties.CalculateHandValueIgnoresOrder | src/hand.py:58-130 | two orderings of the same five cards get the same play |
| HandProperties.ReorderedCounts | src/hand.py:61-65 | reordering the cards keeps every name count, the multiset of values, the number of names and the flush test |
| HandExamples.FiveNamesPlay | src/hand.py:106-128 | with five different names, the play is the cascade on the suits and on any strictly descending listing of the values |
| HandExamples.HighCardExample | tests/test_hand.py:8-29 | A♦ 2♦ 4♣ 5♣ 10♦ is HIGH_CARD keyed [13, 9, 4, 3, 1] |
| HandExamples.PairExample | tests/test_hand.py:31-51 | A♦ 2♦ 2♥ 5♣ 10♦ is PAIR keyed [1, 13, 9, 4] |
| HandExamples.DoublePairExample | tests/test_hand.py:53-72 | A♦ 2♦ 2♣ 5♣ 5♠ is DOUBLE_PAIR keyed [4, 1, 13] |
| HandExamples.ThreeOfAKindExample | tests/test_hand.py:74-86 | A♦ 2♦ 2♣ 2♠ 5♠ is THREE_OF_A_KIND keyed [1] |
| HandExamples.StraightExample | tests/test_hand.py:88-109 | 2♦ 3♣ 4♣ 5♠ 6♦ is STRAIGHT keyed [5, 4, 3, 2, 1] |
| HandExamples.FlushExample | tests/test_hand.py:111-132 | 2♦ 10♦ 4♦ A♦ 6♦ is FLUSH keyed [13, 9, 5, 3, 1] |
| HandExamples.FullHouseExample | tests/test_hand.py:134-146 | 2♥ 2♦ 2♣ 5♣ 5♠ is FULL_HOUSE keyed [1] |
| HandExamples.FourOfAKindExample | tests/test_hand.py:148-160 | 2♥ 2♦ 2♣ 2♠ 5♠ is FOUR_OF_A_KIND keyed [1] |
| HandExamples.StraightFlushExample | tests/test_hand.py:162-183 | 2♦ 3♦ 4♦ 5♦ 6♦ is STRAIGHT_FLUSH keyed [5, 4, 3, 2, 1] |
| HandExamples.RoyalFlushExample | tests/test_hand.py:185-206 | 10♦ J♦ Q♦ K♦ A♦ is ROYAL_FLUSH keyed [13, 12, 11, 10, 9] |

## Left out

- The `print` with colorama colours in `deal_card` (src/deck.py:66) is console output and is not modelled.
- `__str__` and `__repr__` of `Card`, `Hand` and `Kind` only format text for display.
- The `isinstance` checks returning `NotImplemented` in `__gt__` and `__eq__` are left out: `Gt` and `Eq` only take hands.
- `src/poker_simulator.py` is not part of this model: its methods are empty stubs or cannot run (`abstractmethod` and `deck` are undefined names there, and `append()` is called without an argument), and the evaluator does not depend on it.
- Randomness: `random.shuffle` is CPython's Fisher–Yates pass. Its random draws are a parameter (`draws`), because the generator itself is not modelled. `Decks.Shuffle`, `Decks.Deck.constructor` and `Decks.Deck.DealCard` take those draws.
- `collections.Counter` is modelled by what it returns: the distinct keys in first-seen order, their counts and `most_common`. Its hashing and heap internals are left out.
- Hands.CalculateHandValue: restricted to exactly five cards. The code checks no length. It fails only on an empty list and returns some play for other lengths; those inputs are not modelled. The code raises no error of its own for a wrong hand size.
- Decks.Deck.DealCard: on an empty deck the returned card is only known to come from a freshly shuffled deck; the contract does not say which card it is.
- Suits are a four-value datatype rather than the strings "♣", "♥", "♠" and "♦". The code only compares suits for equality, so this changes nothing.
- Card identity and aliasing: cards are immutable values in the source (a `NamedTuple`), and they are values here.
