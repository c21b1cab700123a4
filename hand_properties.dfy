/** What `Hand.calculate_hand_value` computes, branch by branch, stated in terms
    of how often each name occurs among the five cards, together with the
    consequences: the result ignores the order of the cards, ACE is never low,
    and the quirks of the royal-flush test. */
module HandProperties {
  import opened Seqs
  import opened Decks
  import opened Hands

  /** How many of the cards have name `r`. */
  function RankCount(cards: seq<Card>, r: CardName): nat
  {
    multiset(Names(cards))[r]
  }

  /** How many different names the cards have. */
  function DistinctRanks(cards: seq<Card>): nat
  {
    |set c | c in cards :: c.name|
  }

  /** All cards share one suit. */
  predicate IsFlush(cards: seq<Card>)
  {
    forall c, d :: c in cards && d in cards ==> c.suit == d.suit
  }

  /** Each value is one more than the next: a run of consecutive values, highest first. */
  predicate IsRun(s: seq<int>)
  {
    forall i :: 0 <= i < |s| - 1 ==> s[i] == s[i + 1] + 1
  }

  // ---------------------------------------------------------------------------
  // The counters.

  /** `len(name_counter)` is the number of different names. */
  lemma NameCounterLength(cards: seq<Card>)
    ensures |Dedup(Names(cards))| == DistinctRanks(cards)
  {
    var d := Dedup(Names(cards));
    DistinctCardinality(d);
    forall x | x in d
      ensures x in (set c | c in cards :: c.name)
    {
      var i :| 0 <= i < |Names(cards)| && Names(cards)[i] == x;
      assert cards[i] in cards;
    }
    assert (set x | x in d) == (set c | c in cards :: c.name);
  }

  /** `len(suit_counter) == 1` says exactly that the cards form a flush. */
  lemma SuitCounterIsOneExactlyForFlush(cards: seq<Card>)
    requires cards != []
    ensures |Dedup(SuitsOf(cards))| == 1 <==> IsFlush(cards)
  {
    var suits := SuitsOf(cards);
    var d := Dedup(suits);
    assert suits[0] in d;
    if |d| == 1 {
      forall c, e | c in cards && e in cards
        ensures c.suit == e.suit
      {
        var i :| 0 <= i < |cards| && cards[i] == c;
        var j :| 0 <= j < |cards| && cards[j] == e;
        assert suits[i] in d && suits[j] in d;
      }
    }
    if IsFlush(cards) {
      forall k | 0 <= k < |d|
        ensures d[k] == suits[0]
      {
        var i :| 0 <= i < |suits| && suits[i] == d[k];
        assert cards[i] in cards && cards[0] in cards;
      }
      DistinctCardinality(d);
      assert (set x | x in d) == {suits[0]};
    }
  }

  /** The sum of the counts in a `most_common` listing. */
  function CountTotal(mc: seq<(CardName, nat)>): nat
  {
    if mc == [] then 0 else mc[0].1 + CountTotal(mc[1..])
  }

  /** When each count is the multiplicity of its name, the counts add up to
      the sum of the multiplicities of the listed names. */
  lemma {:induction false} CountTotalIsCountsSum(mc: seq<(CardName, nat)>, m: multiset<CardName>)
    requires forall i :: 0 <= i < |mc| ==> mc[i].1 == m[mc[i].0]
    ensures CountTotal(mc) == CountsSum(Project(mc, (e: (CardName, nat)) => e.0), m)
  {
    if mc != [] {
      var f := (e: (CardName, nat)) => e.0;
      assert Project(mc, f)[1..] == Project(mc[1..], f);
      CountTotalIsCountsSum(mc[1..], m);
    }
  }

  /** The counts `most_common` reports for five names are positive and add up to five. */
  lemma MostCommonCountsAddUp(names: seq<CardName>)
    requires |names| == 5
    ensures 1 <= |MostCommon(names)| <= 5
    ensures forall i :: 0 <= i < |MostCommon(names)| ==> MostCommon(names)[i].1 >= 1
    ensures CountTotal(MostCommon(names)) == 5
  {
    var mc := MostCommon(names);
    var m := multiset(names);
    assert names[0] in Dedup(names);
    var d := Project(mc, (e: (CardName, nat)) => e.0);
    forall x | x in m
      ensures x in d
    {
      assert (x, m[x]) in mc;
      var i :| 0 <= i < |mc| && mc[i] == (x, m[x]);
      assert d[i] == x;
    }
    forall i | 0 <= i < |mc|
      ensures mc[i].1 >= 1
    {
      assert mc[i].0 in m;
    }
    CountsSumCovers(d, m);
    CountTotalIsCountsSum(mc, m);
  }

  /** Positive, descending counts adding up to five leave one shape per length. */
  lemma CountShape(mc: seq<(CardName, nat)>)
    requires 1 <= |mc| <= 5 && CountTotal(mc) == 5
    requires forall i :: 0 <= i < |mc| ==> mc[i].1 >= 1
    requires forall i, j :: 0 <= i < j < |mc| ==> mc[i].1 >= mc[j].1
    ensures |mc| == 1 ==> mc[0].1 == 5
    ensures |mc| == 2 ==> (mc[0].1 == 4 && mc[1].1 == 1) || (mc[0].1 == 3 && mc[1].1 == 2)
    ensures |mc| == 3 ==> (mc[0].1 == 3 && mc[1].1 == 1 && mc[2].1 == 1) ||
                          (mc[0].1 == 2 && mc[1].1 == 2 && mc[2].1 == 1)
    ensures |mc| == 4 ==> mc[0].1 == 2 && mc[1].1 == 1 && mc[2].1 == 1 && mc[3].1 == 1
    ensures |mc| == 5 ==> forall i :: 0 <= i < 5 ==> mc[i].1 == 1
  {
    var t := mc[1..];
    assert CountTotal(mc) == mc[0].1 + CountTotal(t);
    if |mc| >= 2 {
      assert t[0] == mc[1] && t[1..] == mc[2..];
      assert CountTotal(t) == mc[1].1 + CountTotal(mc[2..]);
    }
    if |mc| >= 3 {
      var u := mc[2..];
      assert u[0] == mc[2] && u[1..] == mc[3..];
      assert CountTotal(u) == mc[2].1 + CountTotal(mc[3..]);
    }
    if |mc| >= 4 {
      var u := mc[3..];
      assert u[0] == mc[3] && u[1..] == mc[4..];
      assert CountTotal(u) == mc[3].1 + CountTotal(mc[4..]);
    }
    if |mc| >= 5 {
      var u := mc[4..];
      assert u[0] == mc[4] && u[1..] == mc[5..];
      assert CountTotal(u) == mc[4].1 + CountTotal(mc[5..]);
    }
    assert CountTotal(mc[|mc|..]) == 0;
  }

  /** The counts `most_common` reports for five cards are positive, descending
      and add up to five, which leaves one shape per number of distinct names. */
  lemma MostCommonShape(names: seq<CardName>)
    requires |names| == 5
    ensures 1 <= |MostCommon(names)| <= 5
    ensures var mc := MostCommon(names);
      (|mc| == 1 ==> mc[0].1 == 5) &&
      (|mc| == 2 ==> (mc[0].1 == 4 && mc[1].1 == 1) || (mc[0].1 == 3 && mc[1].1 == 2)) &&
      (|mc| == 3 ==> (mc[0].1 == 3 && mc[1].1 == 1 && mc[2].1 == 1) ||
                     (mc[0].1 == 2 && mc[1].1 == 2 && mc[2].1 == 1)) &&
      (|mc| == 4 ==> mc[0].1 == 2 && mc[1].1 == 1 && mc[2].1 == 1 && mc[3].1 == 1) &&
      (|mc| == 5 ==> forall i :: 0 <= i < 5 ==> mc[i].1 == 1)
  {
    MostCommonCountsAddUp(names);
    CountShape(MostCommon(names));
  }

  // ---------------------------------------------------------------------------
  // The branches of `calculate_hand_value`.

  /** Two distinct names: some name occurs at least three times, and for that
      name the hand is FOUR_OF_A_KIND if it occurs four times and FULL_HOUSE
      otherwise, with that name's value alone as the key. */
  lemma TwoRanks(cards: seq<Card>)
    requires |cards| == 5 && DistinctRanks(cards) == 2
    ensures exists r :: RankCount(cards, r) >= 3
    ensures forall r :: RankCount(cards, r) >= 3 ==>
      CalculateHandValue(cards) ==
        Play(if RankCount(cards, r) == 4 then FourOfAKind else FullHouse, [Strength(r)])
  {
    var names := Names(cards);
    NameCounterLength(cards);
    MostCommonShape(names);
    var mc := MostCommon(names);
    assert RankCount(cards, mc[0].0) >= 3;
    forall r | RankCount(cards, r) >= 3
      ensures CalculateHandValue(cards) ==
        Play(if RankCount(cards, r) == 4 then FourOfAKind else FullHouse, [Strength(r)])
    {
      assert r in multiset(names);
      assert (r, multiset(names)[r]) in mc;
      var i :| 0 <= i < |mc| && mc[i] == (r, multiset(names)[r]);
      assert i == 0;
    }
  }

  /** Three distinct names, one of them three times: THREE_OF_A_KIND, with
      that name's value alone as the key. */
  lemma ThreeRanksTriple(cards: seq<Card>, r: CardName)
    requires |cards| == 5 && DistinctRanks(cards) == 3
    requires RankCount(cards, r) == 3
    ensures CalculateHandValue(cards) == Play(ThreeOfAKind, [Strength(r)])
  {
    var names := Names(cards);
    NameCounterLength(cards);
    MostCommonShape(names);
    var mc := MostCommon(names);
    assert r in multiset(names);
    assert (r, multiset(names)[r]) in mc;
    var i :| 0 <= i < |mc| && mc[i] == (r, 3);
    assert i == 0;
  }

  /** For counts (2, 2, 1), `most_common` starts with a pair, and sorting the
      two pairs' values then adding the odd one gives high pair, low pair, odd card. */
  lemma DoublePairCounts(names: seq<CardName>, hi: CardName, lo: CardName, kicker: CardName)
    requires |names| == 5 && |Dedup(names)| == 3
    requires multiset(names)[hi] == 2 && multiset(names)[lo] == 2
    requires multiset(names)[kicker] == 1
    requires Strength(hi) > Strength(lo)
    ensures MostCommon(names)[0].1 == 2
    ensures var mc := MostCommon(names);
      SortDescending([Strength(mc[0].0), Strength(mc[1].0)]) + [Strength(mc[2].0)] ==
      [Strength(hi), Strength(lo), Strength(kicker)]
  {
    MostCommonShape(names);
    var mc := MostCommon(names);
    assert (hi, 2) in mc && (lo, 2) in mc && (kicker, 1) in mc by {
      var m := multiset(names);
      assert hi in m && lo in m && kicker in m;
    }
    DoublePairOrder(mc, hi, lo, kicker);
  }

  /** Counts (3, 1, 1) or (2, 2, 1) with two names counted twice are (2, 2, 1),
      the two pairs first in some order and the odd name last. */
  lemma DoublePairOrder(mc: seq<(CardName, nat)>, hi: CardName, lo: CardName, kicker: CardName)
    requires |mc| == 3
    requires (mc[0].1 == 3 && mc[1].1 == 1 && mc[2].1 == 1) ||
             (mc[0].1 == 2 && mc[1].1 == 2 && mc[2].1 == 1)
    requires (hi, 2) in mc && (lo, 2) in mc && (kicker, 1) in mc
    requires Strength(hi) > Strength(lo)
    ensures mc[0].1 == 2
    ensures SortDescending([Strength(mc[0].0), Strength(mc[1].0)]) + [Strength(mc[2].0)] ==
      [Strength(hi), Strength(lo), Strength(kicker)]
  {
    assert mc[0].1 == 2 && mc[2].0 == kicker &&
      ((mc[0].0 == hi && mc[1].0 == lo) || (mc[0].0 == lo && mc[1].0 == hi)) by {
      assert mc == [mc[0], mc[1], mc[2]];
    }
    PairsThenOdd(Strength(mc[0].0), Strength(mc[1].0), Strength(hi), Strength(lo), Strength(kicker));
  }

  /** The two pair values sorted highest first, then the odd value. */
  lemma PairsThenOdd(x: int, y: int, high: int, low: int, odd: int)
    requires (x == high && y == low) || (x == low && y == high)
    requires high > low
    ensures SortDescending([x, y]) + [odd] == [high, low, odd]
  {
    SortPair(x, y);
    assert [high, low] + [odd] == [high, low, odd];
  }

  /** Three distinct names, two of them twice: DOUBLE_PAIR, keyed by the higher
      pair, then the lower pair, then the odd card. */
  lemma ThreeRanksTwoPairs(cards: seq<Card>, hi: CardName, lo: CardName, kicker: CardName)
    requires |cards| == 5 && DistinctRanks(cards) == 3
    requires RankCount(cards, hi) == 2 && RankCount(cards, lo) == 2
    requires RankCount(cards, kicker) == 1
    requires Strength(hi) > Strength(lo)
    ensures CalculateHandValue(cards) ==
      Play(DoublePair, [Strength(hi), Strength(lo), Strength(kicker)])
  {
    NameCounterLength(cards);
    DoublePairCounts(Names(cards), hi, lo, kicker);
  }

  /** `sorted([a, b], reverse=True)` puts the larger first. */
  lemma SortPair(a: int, b: int)
    ensures SortDescending([a, b]) == if a >= b then [a, b] else [b, a]
  {
    if a >= b {
      DescendingUnique(SortDescending([a, b]), [a, b]);
    } else {
      assert multiset([a, b]) == multiset([b, a]);
      DescendingUnique(SortDescending([a, b]), [b, a]);
    }
  }

  /** The values of the cards are the strengths of their names. */
  lemma ValuesAreStrengths(cards: seq<Card>)
    ensures Values(cards) == Project(Names(cards), Strength)
    ensures |Dedup(Values(cards))| == |Dedup(Names(cards))|
  {
    forall x: CardName, y: CardName
      ensures Strength(x) == Strength(y) ==> x == y
    {
      StrengthInjective(x, y);
    }
    DedupProjectInjective(Names(cards), Strength);
  }

  /** For counts (2, 1, 1, 1), `most_common` starts with the pair. */
  lemma PairCounts(names: seq<CardName>, r: CardName)
    requires |names| == 5 && |Dedup(names)| == 4
    requires multiset(names)[r] == 2
    ensures MostCommon(names)[0] == (r, 2)
  {
    MostCommonShape(names);
    var mc := MostCommon(names);
    assert r in multiset(names);
    assert (r, multiset(names)[r]) in mc;
    var i :| 0 <= i < |mc| && mc[i] == (r, 2);
    assert i == 0;
  }

  /** The other values of a hand with four different values, one of them `v`:
      `sorted(set(values) - {v}, reverse=True)` holds each of the three other
      values once, highest first. */
  lemma OtherValues(sortedValues: seq<int>, values: seq<int>, v: int)
    requires multiset(sortedValues) == multiset(values)
    requires |Dedup(values)| == 4 && v in values
    ensures var tail := SortDescending(Without(Dedup(sortedValues), v));
      |tail| == 3 &&
      (forall i, j :: 0 <= i < j < 3 ==> tail[i] > tail[j]) &&
      (forall x :: x in tail <==> x in values && x != v)
  {
    var distinct := Dedup(sortedValues);
    DedupOfPermutation(sortedValues, values);
    assert v in distinct;
    var rest := Without(distinct, v);
    var tail := SortDescending(rest);
    assert |tail| == 3;
    assert forall i, j :: 0 <= i < j < |tail| ==> tail[i] > tail[j] by {
      PermutationKeepsDistinct(rest, tail);
      StrictlyDescending(tail);
    }
    assert forall x :: x in tail <==> x in values && x != v by {
      SameElements(rest, tail);
    }
  }

  /** The other values of four different values can be listed strictly descending. */
  lemma OthersDescending(values: seq<int>, v: int) returns (rest: seq<int>)
    requires |Dedup(values)| == 4 && v in values
    ensures forall i, j :: 0 <= i < j < |rest| ==> rest[i] > rest[j]
    ensures forall x :: x in rest <==> x in values && x != v
  {
    var sorted := SortDescending(values);
    OtherValues(sorted, values, v);
    rest := SortDescending(Without(Dedup(sorted), v));
  }

  /** Any strictly descending listing of the other values is that tail. */
  lemma PairTail(sortedValues: seq<int>, values: seq<int>, v: int, rest: seq<int>)
    requires multiset(sortedValues) == multiset(values)
    requires |Dedup(values)| == 4 && v in values
    requires forall i, j :: 0 <= i < j < |rest| ==> rest[i] > rest[j]
    requires forall x :: x in rest <==> x in values && x != v
    ensures SortDescending(Without(Dedup(sortedValues), v)) == rest
    ensures |rest| == 3
  {
    var tail := SortDescending(Without(Dedup(sortedValues), v));
    OtherValues(sortedValues, values, v);
    SameElementsDescending(tail, rest);
  }

  /** A name that occurs among the cards contributes its strength to the values. */
  lemma NameValuePresent(cards: seq<Card>, r: CardName)
    requires RankCount(cards, r) > 0
    ensures Strength(r) in Values(cards)
  {
    var names := Names(cards);
    assert r in multiset(names);
    var k :| 0 <= k < |names| && names[k] == r;
    assert Values(cards)[k] == Strength(r);
  }

  /** The PAIR branch, once `most_common` has put the pair first. */
  lemma PairPlay(cards: seq<Card>, r: CardName)
    requires |cards| == 5 && |Dedup(Names(cards))| == 4
    requires MostCommon(Names(cards))[0] == (r, 2)
    ensures CalculateHandValue(cards) ==
      Play(Pair, [Strength(r)] + SortDescending(Without(Dedup(SortDescending(Values(cards))), Strength(r))))
  {
  }

  /** The PAIR key's tail, `sorted(set(values) - {pair value}, reverse=True)`,
      for four different values one of which is `v`: the other three values,
      each once, highest first. */
  lemma PairKey(values: seq<int>, v: int, rest: seq<int>)
    requires |Dedup(values)| == 4 && v in values
    requires forall i, j :: 0 <= i < j < |rest| ==> rest[i] > rest[j]
    requires forall x :: x in rest <==> x in values && x != v
    ensures SortDescending(Without(Dedup(SortDescending(values)), v)) == rest
    ensures |rest| == 3
  {
    PairTail(SortDescending(values), values, v, rest);
  }

  /** Four distinct names, one of them twice: PAIR, keyed by the pair's value
      and then the other three values, each once, highest first (`rest`). */
  lemma FourRanks(cards: seq<Card>, r: CardName, rest: seq<int>)
    requires |cards| == 5 && DistinctRanks(cards) == 4
    requires RankCount(cards, r) == 2
    requires forall i, j :: 0 <= i < j < |rest| ==> rest[i] > rest[j]
    requires forall v :: v in rest <==> v in Values(cards) && v != Strength(r)
    ensures |rest| == 3
    ensures CalculateHandValue(cards) == Play(Pair, [Strength(r)] + rest)
  {
    NameCounterLength(cards);
    PairCounts(Names(cards), r);
    ValuesAreStrengths(cards);
    NameValuePresent(cards, r);
    PairKey(Values(cards), Strength(r), rest);
    PairPlay(cards, r);
  }

  /** `straight`: the set of differences between neighbours is exactly {1}
      when the sorted values form a run, for two values or more. */
  lemma StraightIsRun(s: seq<int>)
    requires |s| >= 2
    ensures IsStraight(s) <==> IsRun(s)
  {
    if IsRun(s) {
      assert Step(s, 0) == 1;
      forall x | x in AdjacentDifferences(s)
        ensures x == 1
      {
        var i :| 0 <= i < |s| - 1 && Step(s, i) == x;
      }
    }
    if AdjacentDifferences(s) == {1} {
      forall i | 0 <= i < |s| - 1
        ensures s[i] == s[i + 1] + 1
      {
        assert Step(s, i) in AdjacentDifferences(s);
      }
    }
  }

  /** The STRAIGHT / FLUSH / HIGH_CARD branch, reached with five different
      names and, since the counts are not looked at, with one name five times. */
  lemma UngroupedPlay(cards: seq<Card>)
    requires |cards| == 5
    requires |Dedup(Names(cards))| == 1 || |Dedup(Names(cards))| == 5
    ensures CalculateHandValue(cards).key == SortDescending(Values(cards))
    ensures var sortedValues := SortDescending(Values(cards));
      CalculateHandValue(cards).kind ==
        UngroupedKind(|Dedup(SuitsOf(cards))|, sortedValues[4], sortedValues)
  {
    var sortedValues := SortDescending(Values(cards));
    assert |sortedValues| == 5;
    var p := CalculateHandValue(cards);
    // The same equation in both cases: splitting on the branch taken keeps
    // each proof obligation small for the solver.
    if |Dedup(Names(cards))| == 1 {
      assert p == Play(UngroupedKind(|Dedup(SuitsOf(cards))|, sortedValues[4], sortedValues), sortedValues);
    } else {
      assert p == Play(UngroupedKind(|Dedup(SuitsOf(cards))|, sortedValues[4], sortedValues), sortedValues);
    }
  }

  /** With no name repeated (or one name five times) the key is all five
      values, highest first, and the kind is read off the key and the suits:
      one suit and lowest value 9 (TEN) is ROYAL_FLUSH, one suit and a run is
      STRAIGHT_FLUSH, one suit otherwise FLUSH; several suits and a run is
      STRAIGHT, otherwise HIGH_CARD. */
  lemma NoRepeatedRank(cards: seq<Card>)
    requires |cards| == 5
    requires DistinctRanks(cards) == 1 || DistinctRanks(cards) == 5
    ensures var p := CalculateHandValue(cards);
      |p.key| == 5 && Descending(p.key) && multiset(p.key) == multiset(Values(cards)) &&
      p.kind ==
        if IsFlush(cards) then
          if p.key[4] == 9 then RoyalFlush
          else if IsRun(p.key) then StraightFlush
          else Flush
        else if IsRun(p.key) then Straight
        else HighCard
  {
    NameCounterLength(cards);
    SuitCounterIsOneExactlyForFlush(cards);
    UngroupedPlay(cards);
    StraightIsRun(SortDescending(Values(cards)));
  }

  /** Five different values, strictly descending, none above 13, the lowest 9:
      they can only be 13, 12, 11, 10, 9. */
  lemma TopRun(key: seq<int>)
    requires |key| == 5
    requires forall i, j :: 0 <= i < j < 5 ==> key[i] > key[j]
    requires key[0] <= 13 && key[4] == 9
    ensures key == [13, 12, 11, 10, 9]
  {
    assert key[3] > key[4] && key[2] > key[3] && key[1] > key[2] && key[0] > key[1];
  }

  /** A run of five spans four steps. */
  lemma RunSpan(key: seq<int>)
    requires |key| == 5 && IsRun(key)
    ensures key[0] == key[4] + 4
  {
    assert key[0] == key[1] + 1 && key[1] == key[2] + 1;
    assert key[2] == key[3] + 1 && key[3] == key[4] + 1;
  }

  /** Every value in the key of the ungrouped branch is a card's value, so lies in 1..13. */
  lemma KeyValuesInRange(cards: seq<Card>, key: seq<int>)
    requires multiset(key) == multiset(Values(cards))
    ensures forall i :: 0 <= i < |key| ==> 1 <= key[i] <= 13
  {
    forall i | 0 <= i < |key|
      ensures 1 <= key[i] <= 13
    {
      assert key[i] in multiset(Values(cards));
      var k :| 0 <= k < |Values(cards)| && Values(cards)[k] == key[i];
      assert key[i] == cards[k].Value();
    }
  }

  /** With five different names the values differ, so the key strictly descends. */
  lemma FiveRanksStrict(cards: seq<Card>)
    requires |cards| == 5 && DistinctRanks(cards) == 5
    ensures var key := CalculateHandValue(cards).key;
      |key| == 5 && forall i, j :: 0 <= i < j < 5 ==> key[i] > key[j]
  {
    NoRepeatedRank(cards);
    NameCounterLength(cards);
    ValuesAreStrengths(cards);
    DedupFull(Values(cards));
    var key := CalculateHandValue(cards).key;
    PermutationKeepsDistinct(Values(cards), key);
  }

  /** With five different names the hand is a ROYAL_FLUSH exactly when it is a
      flush of TEN, JACK, QUEEN, KING and ACE: the test "one suit and lowest
      value TEN" is sound once the names differ. */
  lemma RoyalFlushIsTenToAce(cards: seq<Card>)
    requires |cards| == 5 && DistinctRanks(cards) == 5
    ensures CalculateHandValue(cards).kind == RoyalFlush <==>
      IsFlush(cards) && CalculateHandValue(cards).key == [13, 12, 11, 10, 9]
  {
    NoRepeatedRank(cards);
    FiveRanksStrict(cards);
    var key := CalculateHandValue(cards).key;
    KeyValuesInRange(cards, key);
    if key[4] == 9 {
      TopRun(key);
    }
  }

  /** Two names of a card set are equal when the set of names has one element. */
  lemma OneNameShared(cards: seq<Card>, c: Card, d: Card)
    requires DistinctRanks(cards) == 1 && c in cards && d in cards
    ensures c.name == d.name
  {
    var names := set e | e in cards :: e.name;
    assert c.name in names && d.name in names;
    if c.name != d.name {
      assert |{c.name, d.name}| == 2;
      SubsetCardinality({c.name, d.name}, names);
    }
  }

  /** The quirk of a single name repeated five times (which a real deck cannot
      deal): `len(name_counter) == 1` falls through to the flush and straight
      tests, so five TENs of one suit are a ROYAL_FLUSH, five of another name and
      one suit a FLUSH, and otherwise the hand is HIGH_CARD. */
  lemma OneRankQuirk(cards: seq<Card>)
    requires |cards| == 5 && DistinctRanks(cards) == 1
    ensures var v := cards[0].Value();
      CalculateHandValue(cards) ==
        Play(if IsFlush(cards) then (if cards[0].name == Ten then RoyalFlush else Flush) else HighCard,
             [v, v, v, v, v])
  {
    var v := cards[0].Value();
    var values := Values(cards);
    assert values == [v, v, v, v, v] by {
      forall i | 0 <= i < 5
        ensures values[i] == v
      {
        assert cards[i] in cards && cards[0] in cards;
        OneNameShared(cards, cards[i], cards[0]);
      }
    }
    var p := CalculateHandValue(cards);
    NoRepeatedRank(cards);
    ConstantKey(p.key, v);
    assert p.key[4] == 9 <==> cards[0].name == Ten;
  }

  /** A descending arrangement of five copies of `v` is those five copies, no run. */
  lemma ConstantKey(key: seq<int>, v: int)
    requires Descending(key) && multiset(key) == multiset([v, v, v, v, v])
    ensures key == [v, v, v, v, v] && !IsRun(key)
  {
    DescendingUnique(key, [v, v, v, v, v]);
    assert key[0] != key[1] + 1;
  }

  /** A name that occurs among the cards is the name of one of them. */
  lemma NameOfSomeCard(cards: seq<Card>, r: CardName)
    requires RankCount(cards, r) > 0
    ensures r in (set c | c in cards :: c.name)
  {
    var names := Names(cards);
    assert r in multiset(names);
    var k :| 0 <= k < |names| && names[k] == r;
    assert cards[k] in cards;
  }

  /** The branches for two, three and four names only give the grouped kinds. */
  lemma GroupedKinds(cards: seq<Card>)
    requires |cards| == 5 && 2 <= |Dedup(Names(cards))| <= 4
    ensures CalculateHandValue(cards).kind in {FourOfAKind, FullHouse, ThreeOfAKind, DoublePair, Pair}
  {
    var names := Names(cards);
    assert names[0] in Dedup(names);
    var mc := MostCommon(names);
    var kind := CalculateHandValue(cards).kind;
    if |Dedup(names)| == 2 {
      assert kind == if mc[0].1 == 4 then FourOfAKind else FullHouse;
    } else if |Dedup(names)| == 3 {
      assert kind == if mc[0].1 == 3 then ThreeOfAKind else DoublePair;
    } else {
      assert kind == Pair;
    }
  }

  /** Five descending values from 1..13 that include 13 and 1 are no run and
      do not end in 9. */
  lemma AceAndTwoBreakRun(key: seq<int>)
    requires |key| == 5 && Descending(key)
    requires forall i :: 0 <= i < |key| ==> 1 <= key[i] <= 13
    requires 13 in key && 1 in key
    ensures !IsRun(key) && key[4] != 9
  {
    var i :| 0 <= i < 5 && key[i] == 13;
    var j :| 0 <= j < 5 && key[j] == 1;
    assert key[0] == 13 && key[4] == 1;
    if IsRun(key) {
      RunSpan(key);
    }
  }

  /** A hand holding both an ACE and a TWO has at least two different names. */
  lemma AceAndTwoAreTwoNames(cards: seq<Card>)
    requires RankCount(cards, Ace) > 0 && RankCount(cards, Two) > 0
    ensures DistinctRanks(cards) >= 2
  {
    NameOfSomeCard(cards, Ace);
    NameOfSomeCard(cards, Two);
    assert |{Ace, Two}| == 2;
    SubsetCardinality({Ace, Two}, set c | c in cards :: c.name);
  }

  /** ACE always counts 13, so a hand holding both an ACE and a TWO is never
      a straight of any sort: the wheel A-2-3-4-5 is not recognised. */
  lemma AceIsNeverLow(cards: seq<Card>)
    requires |cards| == 5
    requires RankCount(cards, Ace) > 0 && RankCount(cards, Two) > 0
    ensures CalculateHandValue(cards).kind !in {Straight, StraightFlush, RoyalFlush}
  {
    NameCounterLength(cards);
    MostCommonShape(Names(cards));
    AceAndTwoAreTwoNames(cards);
    if DistinctRanks(cards) == 5 {
      NoRepeatedRank(cards);
      var key := CalculateHandValue(cards).key;
      KeyValuesInRange(cards, key);
      NameValuePresent(cards, Ace);
      NameValuePresent(cards, Two);
      assert 13 in multiset(key) && 1 in multiset(key);
      AceAndTwoBreakRun(key);
    } else {
      GroupedKinds(cards);
    }
  }

  // ---------------------------------------------------------------------------
  // The order of the cards does not matter.

  /** With three names the counts are (3, 1, 1) or (2, 2, 1); the names
      playing each part are returned. */
  lemma ThreeRanksCases(cards: seq<Card>) returns (triple: bool, r: CardName, hi: CardName, lo: CardName, kicker: CardName)
    requires |cards| == 5 && DistinctRanks(cards) == 3
    ensures triple ==> RankCount(cards, r) == 3
    ensures !triple ==>
      RankCount(cards, hi) == 2 && RankCount(cards, lo) == 2 &&
      RankCount(cards, kicker) == 1 && Strength(hi) > Strength(lo)
  {
    NameCounterLength(cards);
    MostCommonShape(Names(cards));
    var mc := MostCommon(Names(cards));
    triple := mc[0].1 == 3;
    r := mc[0].0;
    var a, b := mc[0].0, mc[1].0;
    kicker := mc[2].0;
    StrengthInjective(a, b);
    if Strength(a) > Strength(b) {
      hi, lo := a, b;
    } else {
      hi, lo := b, a;
    }
  }

  /** With four names one of them occurs twice. */
  lemma FourRanksHasPair(cards: seq<Card>)
    requires |cards| == 5 && DistinctRanks(cards) == 4
    ensures exists r :: RankCount(cards, r) == 2
  {
    NameCounterLength(cards);
    MostCommonShape(Names(cards));
    var mc := MostCommon(Names(cards));
    assert RankCount(cards, mc[0].0) == 2;
  }

  /** Five cards have between one and five different names. */
  lemma DistinctRanksRange(cards: seq<Card>)
    requires |cards| == 5
    ensures 1 <= DistinctRanks(cards) <= 5
  {
    NameCounterLength(cards);
    MostCommonShape(Names(cards));
  }

  /** Everything the evaluator depends on is the same for two orderings of the same cards. */
  lemma ReorderedCounts(a: seq<Card>, b: seq<Card>)
    requires multiset(a) == multiset(b)
    ensures |a| == |b|
    ensures forall r :: RankCount(a, r) == RankCount(b, r)
    ensures multiset(Values(a)) == multiset(Values(b))
    ensures DistinctRanks(a) == DistinctRanks(b)
    ensures IsFlush(a) == IsFlush(b)
  {
    assert |a| == |multiset(a)| == |multiset(b)| == |b|;
    ProjectPermutation(a, b, (c: Card) => c.name);
    ProjectPermutation(a, b, (c: Card) => c.Value());
    forall c
      ensures c in a <==> c in b
    {
      assert c in a <==> c in multiset(a);
      assert c in b <==> c in multiset(b);
    }
    assert (set c | c in a :: c.name) == (set c | c in b :: c.name);
  }

  /** Two PAIR keys for the same pair and the same values are equal. */
  lemma PairKeysAgree(a: seq<Card>, b: seq<Card>, r: CardName)
    requires |a| == 5 && DistinctRanks(a) == 4 && RankCount(a, r) == 2
    requires |b| == 5 && DistinctRanks(b) == 4 && RankCount(b, r) == 2
    requires forall v :: v in Values(a) <==> v in Values(b)
    ensures CalculateHandValue(a) == CalculateHandValue(b)
  {
    var values := Values(a);
    assert |Dedup(values)| == 4 && Strength(r) in values by {
      NameCounterLength(a);
      ValuesAreStrengths(a);
      NameValuePresent(a, r);
    }
    var rest := OthersDescending(values, Strength(r));
    FourRanks(a, r, rest);
    FourRanks(b, r, rest);
  }

  /** Two hands of the same cards with two names get the same play. */
  lemma TwoRanksAgree(a: seq<Card>, b: seq<Card>)
    requires |a| == 5 && |b| == 5 && DistinctRanks(a) == 2 && DistinctRanks(b) == 2
    requires forall r :: RankCount(a, r) == RankCount(b, r)
    ensures CalculateHandValue(a) == CalculateHandValue(b)
  {
    TwoRanks(a);
    TwoRanks(b);
    var r :| RankCount(a, r) >= 3;
    assert RankCount(b, r) >= 3;
  }

  /** Two hands of the same cards with three names get the same play. */
  lemma ThreeRanksAgree(a: seq<Card>, b: seq<Card>)
    requires |a| == 5 && |b| == 5 && DistinctRanks(a) == 3 && DistinctRanks(b) == 3
    requires forall r :: RankCount(a, r) == RankCount(b, r)
    ensures CalculateHandValue(a) == CalculateHandValue(b)
  {
    var triple, r, hi, lo, kicker := ThreeRanksCases(a);
    if triple {
      TripleAgree(a, b, r);
    } else {
      TwoPairsAgree(a, b, hi, lo, kicker);
    }
  }

  lemma TripleAgree(a: seq<Card>, b: seq<Card>, r: CardName)
    requires |a| == 5 && |b| == 5 && DistinctRanks(a) == 3 && DistinctRanks(b) == 3
    requires RankCount(a, r) == 3 && RankCount(b, r) == 3
    ensures CalculateHandValue(a) == CalculateHandValue(b)
  {
    ThreeRanksTriple(a, r);
    ThreeRanksTriple(b, r);
  }

  lemma TwoPairsAgree(a: seq<Card>, b: seq<Card>, hi: CardName, lo: CardName, kicker: CardName)
    requires |a| == 5 && |b| == 5 && DistinctRanks(a) == 3 && DistinctRanks(b) == 3
    requires RankCount(a, hi) == 2 && RankCount(a, lo) == 2 && RankCount(a, kicker) == 1
    requires RankCount(b, hi) == 2 && RankCount(b, lo) == 2 && RankCount(b, kicker) == 1
    requires Strength(hi) > Strength(lo)
    ensures CalculateHandValue(a) == CalculateHandValue(b)
  {
    ThreeRanksTwoPairs(a, hi, lo, kicker);
    ThreeRanksTwoPairs(b, hi, lo, kicker);
  }

  /** Two hands of the same cards with four names get the same play. */
  lemma FourRanksAgree(a: seq<Card>, b: seq<Card>)
    requires |a| == 5 && |b| == 5 && DistinctRanks(a) == 4 && DistinctRanks(b) == 4
    requires forall r :: RankCount(a, r) == RankCount(b, r)
    requires multiset(Values(a)) == multiset(Values(b))
    ensures CalculateHandValue(a) == CalculateHandValue(b)
  {
    FourRanksHasPair(a);
    var r :| RankCount(a, r) == 2;
    assert RankCount(b, r) == 2;
    forall v
      ensures v in Values(a) <==> v in Values(b)
    {
      assert v in Values(a) <==> v in multiset(Values(a));
      assert v in Values(b) <==> v in multiset(Values(b));
    }
    PairKeysAgree(a, b, r);
  }

  /** Two hands of the same cards without a repeated name get the same play. */
  lemma UngroupedAgree(a: seq<Card>, b: seq<Card>)
    requires |a| == 5 && (DistinctRanks(a) == 1 || DistinctRanks(a) == 5)
    requires |b| == 5 && DistinctRanks(b) == DistinctRanks(a)
    requires multiset(Values(a)) == multiset(Values(b)) && IsFlush(a) == IsFlush(b)
    ensures CalculateHandValue(a) == CalculateHandValue(b)
  {
    NoRepeatedRank(a);
    NoRepeatedRank(b);
    DescendingUnique(CalculateHandValue(a).key, CalculateHandValue(b).key);
  }

  /** `calculate_hand_value` depends on the five cards and not on their order,
      although `most_common` lists equally frequent names in the order met. */
  lemma CalculateHandValueIgnoresOrder(a: seq<Card>, b: seq<Card>)
    requires |a| == 5 && |b| == 5 && multiset(a) == multiset(b)
    ensures CalculateHandValue(a) == CalculateHandValue(b)
  {
    ReorderedCounts(a, b);
    DistinctRanksRange(a);
    var n := DistinctRanks(a);
    if n == 2 {
      TwoRanksAgree(a, b);
    } else if n == 3 {
      ThreeRanksAgree(a, b);
    } else if n == 4 {
      FourRanksAgree(a, b);
    } else {
      UngroupedAgree(a, b);
    }
  }
}
