/** The hands of the evaluator's own unit tests: one lemma per test, stating
    the (kind, key) pair that test expects. Each hand is pinned by a
    `requires`, its names, values and suits are worked out by a lemma that
    does not look at the evaluator, and the play then follows from the
    general lemmas about `CalculateHandValue`. */
module HandExamples {
  import opened Seqs
  import opened Decks
  import opened Hands
  import opened HandProperties

  /** When the names of the cards are exactly the elements of the duplicate-free
      `u`, the hand has |u| different names. */
  lemma NamesOver(cards: seq<Card>, u: seq<CardName>)
    requires NoDuplicates(u)
    requires forall x :: x in Names(cards) <==> x in u
    ensures DistinctRanks(cards) == |u|
  {
    NameCounterLength(cards);
    DedupLength(Names(cards));
    DistinctCardinality(u);
    assert (set x | x in Names(cards)) == (set x | x in u);
  }

  /** For five different names the play is fixed by the suits and by the
      values sorted highest first; `key` is that order. */
  lemma FiveNamesPlay(cards: seq<Card>, key: seq<int>, flush: bool, run: bool)
    requires |cards| == 5 && DistinctRanks(cards) == 5
    requires forall i, j :: 0 <= i < j < |key| ==> key[i] > key[j]
    requires forall v :: v in key <==> v in Values(cards)
    requires IsFlush(cards) == flush && IsRun(key) == run
    ensures |key| == 5
    ensures CalculateHandValue(cards) ==
      Play(if flush then
             if key[4] == 9 then RoyalFlush
             else if run then StraightFlush
             else Flush
           else if run then Straight
           else HighCard,
           key)
  {
    NoRepeatedRank(cards);
    assert NoDuplicates(Values(cards)) by {
      NameCounterLength(cards);
      ValuesAreStrengths(cards);
      DedupFull(Values(cards));
    }
    DistinctOrder(Values(cards), CalculateHandValue(cards).key, key);
  }

  /** A duplicate-free sequence has one descending order: a descending
      permutation of it equals any strictly descending `key` with its elements. */
  lemma DistinctOrder(values: seq<int>, sorted: seq<int>, key: seq<int>)
    requires NoDuplicates(values)
    requires Descending(sorted) && multiset(sorted) == multiset(values)
    requires forall i, j :: 0 <= i < j < |key| ==> key[i] > key[j]
    requires forall v :: v in key <==> v in values
    ensures sorted == key
  {
    PermutationKeepsDistinct(values, sorted);
    StrictlyDescending(sorted);
    SameElements(sorted, values);
    SameElementsDescending(sorted, key);
  }

  /** Five cards of one suit form a flush. */
  lemma OneSuit(cards: seq<Card>, s: Suit)
    requires forall i :: 0 <= i < |cards| ==> cards[i].suit == s
    ensures IsFlush(cards)
  {
  }

  /** Two cards of different suits rule out a flush. */
  lemma TwoSuits(cards: seq<Card>, i: int, j: int)
    requires 0 <= i < |cards| && 0 <= j < |cards|
    requires cards[i].suit != cards[j].suit
    ensures !IsFlush(cards)
  {
    assert cards[i] in cards && cards[j] in cards;
  }

  /** Two neighbours more than one apart break a run. */
  lemma NotRun(key: seq<int>, i: int)
    requires 0 <= i < |key| - 1 && key[i] != key[i + 1] + 1
    ensures !IsRun(key)
  {
  }

  /** The names and the values of five cards, position by position. */
  lemma FiveCards(cards: seq<Card>)
    requires |cards| == 5
    ensures Names(cards) ==
      [cards[0].name, cards[1].name, cards[2].name, cards[3].name, cards[4].name]
    ensures Values(cards) ==
      [Strength(cards[0].name), Strength(cards[1].name), Strength(cards[2].name),
       Strength(cards[3].name), Strength(cards[4].name)]
  {
  }

  // ---------------------------------------------------------------------------
  // The five-name hands.

  /** A♦ 2♦ 4♣ 5♣ 10♦ */
  lemma HighCardHand(cards: seq<Card>)
    requires cards == [Card(Ace, Diamonds), Card(Two, Diamonds), Card(Four, Clubs),
                       Card(Five, Clubs), Card(Ten, Diamonds)]
    ensures DistinctRanks(cards) == 5
    ensures forall v :: v in [13, 9, 4, 3, 1] <==> v in Values(cards)
    ensures !IsFlush(cards)
  {
    FiveCards(cards);
    NamesOver(cards, [Ace, Two, Four, Five, Ten]);
    TwoSuits(cards, 0, 2);
  }

  /** `test_high_card`: A♦ 2♦ 4♣ 5♣ 10♦ is HIGH_CARD keyed A, 10, 5, 4, 2. */
  lemma HighCardExample(cards: seq<Card>)
    requires cards == [Card(Ace, Diamonds), Card(Two, Diamonds), Card(Four, Clubs),
                       Card(Five, Clubs), Card(Ten, Diamonds)]
    ensures CalculateHandValue(cards) == Play(HighCard, [13, 9, 4, 3, 1])
  {
    HighCardHand(cards);
    NotRun([13, 9, 4, 3, 1], 0);
    FiveNamesPlay(cards, [13, 9, 4, 3, 1], false, false);
  }

  /** 2♦ 3♣ 4♣ 5♠ 6♦ */
  lemma StraightHand(cards: seq<Card>)
    requires cards == [Card(Two, Diamonds), Card(Three, Clubs), Card(Four, Clubs),
                       Card(Five, Pikes), Card(Six, Diamonds)]
    ensures DistinctRanks(cards) == 5
    ensures forall v :: v in [5, 4, 3, 2, 1] <==> v in Values(cards)
    ensures !IsFlush(cards)
  {
    FiveCards(cards);
    NamesOver(cards, [Two, Three, Four, Five, Six]);
    TwoSuits(cards, 0, 1);
  }

  /** `test_straight`: 2♦ 3♣ 4♣ 5♠ 6♦ is a STRAIGHT keyed 6, 5, 4, 3, 2. */
  lemma StraightExample(cards: seq<Card>)
    requires cards == [Card(Two, Diamonds), Card(Three, Clubs), Card(Four, Clubs),
                       Card(Five, Pikes), Card(Six, Diamonds)]
    ensures CalculateHandValue(cards) == Play(Straight, [5, 4, 3, 2, 1])
  {
    StraightHand(cards);
    FiveNamesPlay(cards, [5, 4, 3, 2, 1], false, true);
  }

  /** 2♦ 10♦ 4♦ A♦ 6♦ */
  lemma FlushHand(cards: seq<Card>)
    requires cards == [Card(Two, Diamonds), Card(Ten, Diamonds), Card(Four, Diamonds),
                       Card(Ace, Diamonds), Card(Six, Diamonds)]
    ensures DistinctRanks(cards) == 5
    ensures forall v :: v in [13, 9, 5, 3, 1] <==> v in Values(cards)
    ensures IsFlush(cards)
  {
    FiveCards(cards);
    NamesOver(cards, [Two, Ten, Four, Ace, Six]);
    OneSuit(cards, Diamonds);
  }

  /** `test_flush`: 2♦ 10♦ 4♦ A♦ 6♦ is a FLUSH keyed A, 10, 6, 4, 2. */
  lemma FlushExample(cards: seq<Card>)
    requires cards == [Card(Two, Diamonds), Card(Ten, Diamonds), Card(Four, Diamonds),
                       Card(Ace, Diamonds), Card(Six, Diamonds)]
    ensures CalculateHandValue(cards) == Play(Flush, [13, 9, 5, 3, 1])
  {
    FlushHand(cards);
    NotRun([13, 9, 5, 3, 1], 0);
    FiveNamesPlay(cards, [13, 9, 5, 3, 1], true, false);
  }

  /** 2♦ 3♦ 4♦ 5♦ 6♦ */
  lemma StraightFlushHand(cards: seq<Card>)
    requires cards == [Card(Two, Diamonds), Card(Three, Diamonds), Card(Four, Diamonds),
                       Card(Five, Diamonds), Card(Six, Diamonds)]
    ensures DistinctRanks(cards) == 5
    ensures forall v :: v in [5, 4, 3, 2, 1] <==> v in Values(cards)
    ensures IsFlush(cards)
  {
    FiveCards(cards);
    NamesOver(cards, [Two, Three, Four, Five, Six]);
    OneSuit(cards, Diamonds);
  }

  /** `test_straight_flush`: 2♦ 3♦ 4♦ 5♦ 6♦ is a STRAIGHT_FLUSH keyed 6, 5, 4, 3, 2. */
  lemma StraightFlushExample(cards: seq<Card>)
    requires cards == [Card(Two, Diamonds), Card(Three, Diamonds), Card(Four, Diamonds),
                       Card(Five, Diamonds), Card(Six, Diamonds)]
    ensures CalculateHandValue(cards) == Play(StraightFlush, [5, 4, 3, 2, 1])
  {
    StraightFlushHand(cards);
    FiveNamesPlay(cards, [5, 4, 3, 2, 1], true, true);
  }

  /** 10♦ J♦ Q♦ K♦ A♦ */
  lemma RoyalFlushHand(cards: seq<Card>)
    requires cards == [Card(Ten, Diamonds), Card(Jack, Diamonds), Card(Queen, Diamonds),
                       Card(King, Diamonds), Card(Ace, Diamonds)]
    ensures DistinctRanks(cards) == 5
    ensures forall v :: v in [13, 12, 11, 10, 9] <==> v in Values(cards)
    ensures IsFlush(cards)
  {
    FiveCards(cards);
    NamesOver(cards, [Ten, Jack, Queen, King, Ace]);
    OneSuit(cards, Diamonds);
  }

  /** `test_royal_flush`: 10♦ J♦ Q♦ K♦ A♦ is a ROYAL_FLUSH keyed A, K, Q, J, 10. */
  lemma RoyalFlushExample(cards: seq<Card>)
    requires cards == [Card(Ten, Diamonds), Card(Jack, Diamonds), Card(Queen, Diamonds),
                       Card(King, Diamonds), Card(Ace, Diamonds)]
    ensures CalculateHandValue(cards) == Play(RoyalFlush, [13, 12, 11, 10, 9])
  {
    RoyalFlushHand(cards);
    FiveNamesPlay(cards, [13, 12, 11, 10, 9], true, true);
  }

  // ---------------------------------------------------------------------------
  // The hands with a repeated name.

  /** A♦ 2♦ 2♥ 5♣ 10♦ */
  lemma PairHand(cards: seq<Card>)
    requires cards == [Card(Ace, Diamonds), Card(Two, Diamonds), Card(Two, Hearts),
                       Card(Five, Clubs), Card(Ten, Diamonds)]
    ensures DistinctRanks(cards) == 4 && RankCount(cards, Two) == 2
    ensures forall v :: v in Values(cards) && v != 1 <==> v in [13, 9, 4]
  {
    FiveCards(cards);
    NamesOver(cards, [Ace, Two, Five, Ten]);
  }

  /** `test_pair`: A♦ 2♦ 2♥ 5♣ 10♦ is a PAIR of twos, then A, 10, 5. */
  lemma PairExample(cards: seq<Card>)
    requires cards == [Card(Ace, Diamonds), Card(Two, Diamonds), Card(Two, Hearts),
                       Card(Five, Clubs), Card(Ten, Diamonds)]
    ensures CalculateHandValue(cards) == Play(Pair, [1, 13, 9, 4])
  {
    PairHand(cards);
    PairOfTwos(cards);
  }

  /** Any five cards with four names, a pair of twos, and A, 10, 5 beside it. */
  lemma PairOfTwos(cards: seq<Card>)
    requires |cards| == 5 && DistinctRanks(cards) == 4 && RankCount(cards, Two) == 2
    requires forall v :: v in [13, 9, 4] <==> v in Values(cards) && v != Strength(Two)
    ensures CalculateHandValue(cards) == Play(Pair, [1, 13, 9, 4])
  {
    assert [Strength(Two)] + [13, 9, 4] == [1, 13, 9, 4];
    FourRanks(cards, Two, [13, 9, 4]);
  }

  /** A♦ 2♦ 2♣ 5♣ 5♠ */
  lemma DoublePairHand(cards: seq<Card>)
    requires cards == [Card(Ace, Diamonds), Card(Two, Diamonds), Card(Two, Clubs),
                       Card(Five, Clubs), Card(Five, Pikes)]
    ensures DistinctRanks(cards) == 3
    ensures RankCount(cards, Five) == 2 && RankCount(cards, Two) == 2
    ensures RankCount(cards, Ace) == 1
  {
    FiveCards(cards);
    NamesOver(cards, [Ace, Two, Five]);
  }

  /** `test_double_pair`: A♦ 2♦ 2♣ 5♣ 5♠ is a DOUBLE_PAIR of fives and twos, then A. */
  lemma DoublePairExample(cards: seq<Card>)
    requires cards == [Card(Ace, Diamonds), Card(Two, Diamonds), Card(Two, Clubs),
                       Card(Five, Clubs), Card(Five, Pikes)]
    ensures CalculateHandValue(cards) == Play(DoublePair, [4, 1, 13])
  {
    DoublePairHand(cards);
    ThreeRanksTwoPairs(cards, Five, Two, Ace);
  }

  /** A♦ 2♦ 2♣ 2♠ 5♠ */
  lemma ThreeOfAKindHand(cards: seq<Card>)
    requires cards == [Card(Ace, Diamonds), Card(Two, Diamonds), Card(Two, Clubs),
                       Card(Two, Pikes), Card(Five, Pikes)]
    ensures DistinctRanks(cards) == 3 && RankCount(cards, Two) == 3
  {
    FiveCards(cards);
    NamesOver(cards, [Ace, Two, Five]);
  }

  /** `test_three_of_a_kind`: A♦ 2♦ 2♣ 2♠ 5♠ is THREE_OF_A_KIND keyed by the twos alone. */
  lemma ThreeOfAKindExample(cards: seq<Card>)
    requires cards == [Card(Ace, Diamonds), Card(Two, Diamonds), Card(Two, Clubs),
                       Card(Two, Pikes), Card(Five, Pikes)]
    ensures CalculateHandValue(cards) == Play(ThreeOfAKind, [1])
  {
    ThreeOfAKindHand(cards);
    ThreeRanksTriple(cards, Two);
  }

  /** 2♥ 2♦ 2♣ 5♣ 5♠ */
  lemma FullHouseHand(cards: seq<Card>)
    requires cards == [Card(Two, Hearts), Card(Two, Diamonds), Card(Two, Clubs),
                       Card(Five, Clubs), Card(Five, Pikes)]
    ensures DistinctRanks(cards) == 2 && RankCount(cards, Two) == 3
  {
    FiveCards(cards);
    NamesOver(cards, [Two, Five]);
  }

  /** `test_full_house`: 2♥ 2♦ 2♣ 5♣ 5♠ is a FULL_HOUSE keyed by the twos alone. */
  lemma FullHouseExample(cards: seq<Card>)
    requires cards == [Card(Two, Hearts), Card(Two, Diamonds), Card(Two, Clubs),
                       Card(Five, Clubs), Card(Five, Pikes)]
    ensures CalculateHandValue(cards) == Play(FullHouse, [1])
  {
    FullHouseHand(cards);
    TwoRanks(cards);
  }

  /** 2♥ 2♦ 2♣ 2♠ 5♠ */
  lemma FourOfAKindHand(cards: seq<Card>)
    requires cards == [Card(Two, Hearts), Card(Two, Diamonds), Card(Two, Clubs),
                       Card(Two, Pikes), Card(Five, Pikes)]
    ensures DistinctRanks(cards) == 2 && RankCount(cards, Two) == 4
  {
    FiveCards(cards);
    NamesOver(cards, [Two, Five]);
  }

  /** `test_four_of_a_kind`: 2♥ 2♦ 2♣ 2♠ 5♠ is FOUR_OF_A_KIND keyed by the twos alone. */
  lemma FourOfAKindExample(cards: seq<Card>)
    requires cards == [Card(Two, Hearts), Card(Two, Diamonds), Card(Two, Clubs),
                       Card(Two, Pikes), Card(Five, Pikes)]
    ensures CalculateHandValue(cards) == Play(FourOfAKind, [1])
  {
    FourOfAKindHand(cards);
    TwoRanks(cards);
  }
}
