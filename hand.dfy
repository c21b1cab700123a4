/** The five-card hand evaluator: `Kind`, the `(kind, tie-break values)` pair
    a hand is ranked by, `Hand.calculate_hand_value`, and `Hand` itself. */
module Hands {
  import opened Seqs
  import opened Decks

  /** `Kind`, an `IntEnum` running from HIGH_CARD = 1 to ROYAL_FLUSH = 10. */
  datatype Kind =
    | HighCard | Pair | DoublePair | ThreeOfAKind | Straight
    | Flush | FullHouse | FourOfAKind | StraightFlush | RoyalFlush

  /** The kinds in declaration order. */
  const AllKinds: seq<Kind> :=
    [HighCard, Pair, DoublePair, ThreeOfAKind, Straight,
     Flush, FullHouse, FourOfAKind, StraightFlush, RoyalFlush]

  /** The integer `auto()` gives each `Kind`. */
  function KindValue(k: Kind): (v: int)
    ensures 1 <= v <= 10
    ensures v == 1 <==> k == HighCard
    ensures v == 10 <==> k == RoyalFlush
  {
    match k
    case HighCard => 1
    case Pair => 2
    case DoublePair => 3
    case ThreeOfAKind => 4
    case Straight => 5
    case Flush => 6
    case FullHouse => 7
    case FourOfAKind => 8
    case StraightFlush => 9
    case RoyalFlush => 10
  }

  /** The kinds are numbered 1, 2, ..., 10 in declaration order, so the order
      runs HIGH_CARD < PAIR < ... < STRAIGHT < FLUSH < FULL_HOUSE < ... < ROYAL_FLUSH
      and no two kinds share a value. */
  lemma KindValueFollowsDeclarationOrder()
    ensures |AllKinds| == 10
    ensures forall i :: 0 <= i < |AllKinds| ==> KindValue(AllKinds[i]) == i + 1
    ensures forall k :: AllKinds[KindValue(k) - 1] == k
  {
    forall k: Kind
      ensures AllKinds[KindValue(k) - 1] == k
    {
      match k {
        case HighCard =>
        case Pair =>
        case DoublePair =>
        case ThreeOfAKind =>
        case Straight =>
        case Flush =>
        case FullHouse =>
        case FourOfAKind =>
        case StraightFlush =>
        case RoyalFlush =>
      }
    }
  }

  /** `play`: the kind of a hand and the card values that break a tie. */
  datatype Play = Play(kind: Kind, key: seq<int>)

  // ---------------------------------------------------------------------------
  // Comparing plays: Python's ordering of tuples and lists.

  /** Python's `a > b` on lists of integers: the first differing element
      decides, and otherwise the longer list is the greater. */
  function ListGreater(a: seq<int>, b: seq<int>): (r: bool)
    ensures r ==> a != b
    ensures b < a ==> r
    ensures a <= b ==> !r
    ensures forall k :: 0 <= k < |a| && k < |b| && a[..k] == b[..k] && a[k] != b[k] ==>
      (r <==> a[k] > b[k])
  {
    if a == [] then false
    else if b == [] then true
    else if a[0] != b[0] then a[0] > b[0]
    else
      assert forall k :: 0 < k <= |a| && k <= |b| && a[..k] == b[..k] ==>
        a[1..][..k - 1] == b[1..][..k - 1];
      ListGreater(a[1..], b[1..])
  }

  /** Python's `>` on `(kind, key)` tuples: the kinds decide unless they are
      equal, and then the keys do. */
  function PlayGreater(p: Play, q: Play): (r: bool)
    ensures KindValue(p.kind) > KindValue(q.kind) ==> r
    ensures KindValue(p.kind) < KindValue(q.kind) ==> !r
    ensures r ==> p != q
    ensures p.kind == q.kind ==> (r <==> ListGreater(p.key, q.key))
  {
    if p.kind != q.kind then KindValue(p.kind) > KindValue(q.kind)
    else ListGreater(p.key, q.key)
  }

  /** Exactly one of `a > b`, `a == b` and `b > a` holds for two lists. */
  lemma {:induction false} ListTrichotomy(a: seq<int>, b: seq<int>)
    ensures ListGreater(a, b) ==> !ListGreater(b, a) && a != b
    ensures a != b ==> ListGreater(a, b) || ListGreater(b, a)
  {
    if a != [] && b != [] && a[0] == b[0] {
      ListTrichotomy(a[1..], b[1..]);
      assert a == [a[0]] + a[1..];
      assert b == [b[0]] + b[1..];
    }
  }

  /** List comparison is transitive. */
  lemma {:induction false} ListTransitive(a: seq<int>, b: seq<int>, c: seq<int>)
    requires ListGreater(a, b) && ListGreater(b, c)
    ensures ListGreater(a, c)
  {
    if c != [] && a[0] == b[0] && b[0] == c[0] {
      ListTransitive(a[1..], b[1..], c[1..]);
    }
  }

  /** Exactly one of `p > q`, `p == q` and `q > p` holds for two plays. */
  lemma PlayTrichotomy(p: Play, q: Play)
    ensures PlayGreater(p, q) ==> !PlayGreater(q, p) && p != q
    ensures p != q ==> PlayGreater(p, q) || PlayGreater(q, p)
  {
    KindValueFollowsDeclarationOrder();
    assert AllKinds[KindValue(p.kind) - 1] == p.kind;
    assert AllKinds[KindValue(q.kind) - 1] == q.kind;
    ListTrichotomy(p.key, q.key);
  }

  /** Play comparison is transitive. */
  lemma PlayTransitive(p: Play, q: Play, r: Play)
    requires PlayGreater(p, q) && PlayGreater(q, r)
    ensures PlayGreater(p, r)
  {
    KindValueFollowsDeclarationOrder();
    assert AllKinds[KindValue(p.kind) - 1] == p.kind;
    assert AllKinds[KindValue(q.kind) - 1] == q.kind;
    assert AllKinds[KindValue(r.kind) - 1] == r.kind;
    if p.kind == q.kind == r.kind {
      ListTransitive(p.key, q.key, r.key);
    }
  }

  // ---------------------------------------------------------------------------
  // Counting ranks and suits.

  /** `[card.value for card in cards]` */
  function Values(cards: seq<Card>): seq<int>
  {
    Project(cards, (c: Card) => c.Value())
  }

  /** `[card.name for card in cards]` */
  function Names(cards: seq<Card>): seq<CardName>
  {
    Project(cards, (c: Card) => c.name)
  }

  /** `[card.suit for card in cards]` */
  function SuitsOf(cards: seq<Card>): seq<Suit>
  {
    Project(cards, (c: Card) => c.suit)
  }

  /** `[(x, count of x in names) for x in keys]` */
  function Tally(keys: seq<CardName>, names: seq<CardName>): (t: seq<(CardName, nat)>)
    ensures |t| == |keys|
    ensures forall i :: 0 <= i < |keys| ==> t[i] == (keys[i], multiset(names)[keys[i]])
  {
    Project(keys, (x: CardName) => (x, multiset(names)[x]))
  }

  predicate ByCountDescending(s: seq<(CardName, nat)>)
  {
    forall i, j :: 0 <= i < j < |s| ==> s[i].1 >= s[j].1
  }

  /** Inserts `e` after every entry whose count is at least `e`'s. */
  function InsertByCount(s: seq<(CardName, nat)>, e: (CardName, nat)): (r: seq<(CardName, nat)>)
    requires ByCountDescending(s)
    ensures ByCountDescending(r)
    ensures multiset(r) == multiset(s) + multiset{e}
    decreases |s|
  {
    if s == [] || s[|s| - 1].1 >= e.1 then
      ByCountAppend(s, e);
      s + [e]
    else
      var init := s[..|s| - 1];
      var t := InsertByCount(init, e);
      assert s == init + [s[|s| - 1]];
      CountsAtLeast(t, init, e, s[|s| - 1].1);
      ByCountAppend(t, s[|s| - 1]);
      t + [s[|s| - 1]]
  }

  /** Appending an entry whose count is at most the last one's keeps the order. */
  lemma ByCountAppend(t: seq<(CardName, nat)>, x: (CardName, nat))
    requires ByCountDescending(t)
    requires t == [] || t[|t| - 1].1 >= x.1
    ensures ByCountDescending(t + [x])
  {
    var u := t + [x];
    forall i, j | 0 <= i < j < |u|
      ensures u[i].1 >= u[j].1
    {
      if j == |t| {
        assert u[i] == t[i] && t[i].1 >= t[|t| - 1].1;
      } else {
        assert u[i] == t[i] && u[j] == t[j];
      }
    }
  }

  /** Adding `e` to entries whose counts are all at least `bound` keeps them so
      when `e`'s count is at least `bound` too. */
  lemma CountsAtLeast(t: seq<(CardName, nat)>, s: seq<(CardName, nat)>, e: (CardName, nat), bound: nat)
    requires multiset(t) == multiset(s) + multiset{e}
    requires e.1 >= bound && forall k :: 0 <= k < |s| ==> s[k].1 >= bound
    ensures forall k :: 0 <= k < |t| ==> t[k].1 >= bound
  {
    forall k | 0 <= k < |t|
      ensures t[k].1 >= bound
    {
      assert t[k] in multiset(t);
      if t[k] != e {
        assert t[k] in multiset(s);
      }
    }
  }

  /** `sorted(s, key=count, reverse=True)`: largest count first. The insertion
      keeps entries of equal count in their order in `s`, as Python's stable sort
      does; the contract states only the order by count and the permutation,
      and `CalculateHandValueIgnoresOrder` shows the tie order never reaches a play. */
  function SortByCount(s: seq<(CardName, nat)>): (r: seq<(CardName, nat)>)
    ensures ByCountDescending(r)
    ensures multiset(r) == multiset(s)
    decreases |s|
  {
    if s == [] then []
    else
      assert s == s[..|s| - 1] + [s[|s| - 1]];
      InsertByCount(SortByCount(s[..|s| - 1]), s[|s| - 1])
  }

  /** `Counter(names).most_common()`: each distinct name with its number of
      occurrences, most frequent first. The body lists ties in order of first
      occurrence; the contract leaves the tie order open. */
  function MostCommon(names: seq<CardName>): (mc: seq<(CardName, nat)>)
    ensures |mc| == |Dedup(names)|
    ensures forall i :: 0 <= i < |mc| ==> mc[i].0 in names && mc[i].1 == multiset(names)[mc[i].0]
    ensures forall i, j :: 0 <= i < j < |mc| ==> mc[i].0 != mc[j].0 && mc[i].1 >= mc[j].1
    ensures forall x :: x in names ==> (x, multiset(names)[x]) in mc
  {
    var keys := Dedup(names);
    var mc := SortByCount(Tally(keys, names));
    MostCommonFacts(names, keys, Tally(keys, names), mc);
    mc
  }

  lemma MostCommonFacts(names: seq<CardName>, keys: seq<CardName>, t: seq<(CardName, nat)>, mc: seq<(CardName, nat)>)
    requires keys == Dedup(names) && t == Tally(keys, names)
    requires multiset(mc) == multiset(t)
    ensures |mc| == |keys|
    ensures forall i :: 0 <= i < |mc| ==> mc[i].0 in names && mc[i].1 == multiset(names)[mc[i].0]
    ensures forall i, j :: 0 <= i < j < |mc| ==> mc[i].0 != mc[j].0
    ensures forall x :: x in names ==> (x, multiset(names)[x]) in mc
  {
    assert |mc| == |multiset(mc)| == |multiset(t)| == |t|;
    forall i | 0 <= i < |mc|
      ensures mc[i].0 in names && mc[i].1 == multiset(names)[mc[i].0]
    {
      assert mc[i] in multiset(t);
      var k :| 0 <= k < |t| && t[k] == mc[i];
    }
    assert NoDuplicates(t) by {
      forall i, j | 0 <= i < j < |t|
        ensures t[i] != t[j]
      {
        assert t[i].0 == keys[i] && t[j].0 == keys[j];
      }
    }
    PermutationKeepsDistinct(t, mc);
    forall x | x in names
      ensures (x, multiset(names)[x]) in mc
    {
      var k :| 0 <= k < |names| && names[k] == x;
      assert x in keys;
      var i :| 0 <= i < |keys| && keys[i] == x;
      assert t[i] in multiset(mc);
    }
  }

  // ---------------------------------------------------------------------------
  // The evaluator.

  /** The difference between the values at positions `i` and `i + 1`. */
  function Step(s: seq<int>, i: int): int
    requires 0 <= i < |s| - 1
  {
    s[i] - s[i + 1]
  }

  /** `{x[1] - x[0] for x in zip(s[1:], s)}` */
  function AdjacentDifferences(s: seq<int>): set<int>
  {
    set i | 0 <= i < |s| - 1 :: Step(s, i)
  }

  /** `{1} == {x[1] - x[0] for x in zip(s[1:], s)}`: every neighbour is one below the previous value. */
  predicate IsStraight(s: seq<int>)
  {
    AdjacentDifferences(s) == {1}
  }

  /** `Hand.calculate_hand_value(cards)`. The number of distinct names picks the
      branch; `most_common` supplies the dominant name and its count. */
  function CalculateHandValue(cards: seq<Card>): (p: Play)
    requires |cards| == 5
    ensures p.kind in {FourOfAKind, FullHouse, ThreeOfAKind} ==> |p.key| == 1
    ensures p.kind == DoublePair ==> |p.key| == 3
    ensures p.kind in {HighCard, Straight, Flush, StraightFlush, RoyalFlush} ==>
      |p.key| == 5 && Descending(p.key) && multiset(p.key) == multiset(Values(cards))
  {
    var sortedValues := SortDescending(Values(cards));
    var minValue := sortedValues[|sortedValues| - 1];
    var suitKinds := |Dedup(SuitsOf(cards))|;
    var names := Names(cards);
    var nameKinds := |Dedup(names)|;
    assert names[0] in Dedup(names);
    var mostCommon := MostCommon(names);
    var mostCommonCard := mostCommon[0].0;
    var occurrences := mostCommon[0].1;
    if nameKinds == 2 then
      Play(if occurrences == 4 then FourOfAKind else FullHouse, [Strength(mostCommonCard)])
    else if nameKinds == 3 then
      if occurrences == 3 then
        Play(ThreeOfAKind, [Strength(mostCommonCard)])
      else
        Play(DoublePair,
             SortDescending([Strength(mostCommon[0].0), Strength(mostCommon[1].0)])
             + [Strength(mostCommon[2].0)])
    else if nameKinds == 4 then
      Play(Pair,
           [Strength(mostCommonCard)]
           + SortDescending(Without(Dedup(sortedValues), Strength(mostCommonCard))))
    else
      Play(UngroupedKind(suitKinds, minValue, sortedValues), sortedValues)
  }

  /** The kind when no name repeats: a single suit makes ROYAL_FLUSH when the
      lowest value is 9 (TEN), else STRAIGHT_FLUSH or FLUSH; several suits make
      STRAIGHT or HIGH_CARD. */
  function UngroupedKind(suitKinds: int, minValue: int, sortedValues: seq<int>): (k: Kind)
    ensures k == RoyalFlush <==> suitKinds == 1 && minValue == 9
    ensures k == StraightFlush <==> suitKinds == 1 && minValue != 9 && IsStraight(sortedValues)
    ensures k == Straight <==> suitKinds != 1 && IsStraight(sortedValues)
    ensures k == Flush <==> suitKinds == 1 && minValue != 9 && !IsStraight(sortedValues)
    ensures k in {RoyalFlush, StraightFlush, Flush, Straight, HighCard}
  {
    var straight := IsStraight(sortedValues);
    if suitKinds == 1 then
      if minValue == 9 then RoyalFlush
      else if straight then StraightFlush
      else Flush
    else if straight then Straight
    else HighCard
  }

  // ---------------------------------------------------------------------------
  // Hands.

  /** `[deck.deal_card() for _ in range(5)]`: five cards in the order they
      were dealt, the top of the deck first. */
  method DealFive(deck: Deck, draws: seq<seq<nat>>) returns (dealt: seq<Card>)
    requires |draws| == 5
    requires forall i :: 0 <= i < 5 ==> |draws[i]| >= 51
    modifies deck
    ensures |dealt| == 5
    ensures var n := |old(deck.cards)|;
            var k := if n < 5 then n else 5;
            deck.cards == old(deck.cards)[..n - k] &&
            forall i :: 0 <= i < k ==> dealt[i] == old(deck.cards)[n - 1 - i]
    ensures old(deck.Valid()) ==> deck.Valid()
    ensures old(deck.Valid()) && |old(deck.cards)| >= 5 ==> NoDuplicates(dealt)
  {
    ghost var initial := deck.cards;
    ghost var n := |initial|;
    dealt := [];
    for i := 0 to 5
      invariant |dealt| == i
      invariant i <= n ==> deck.cards == initial[..n - i]
      invariant n < i ==> deck.cards == []
      invariant forall j :: 0 <= j < i && j < n ==> dealt[j] == initial[n - 1 - j]
      invariant NoDuplicates(initial) ==> deck.Valid()
    {
      var c := deck.DealCard(draws[i]);
      dealt := dealt + [c];
    }
    if NoDuplicates(initial) && n >= 5 {
      forall i, j | 0 <= i < j < 5
        ensures dealt[i] != dealt[j]
      {
        assert dealt[i] == initial[n - 1 - i] && dealt[j] == initial[n - 1 - j];
      }
    }
  }

  /** A dealt hand: the five cards in the order they were dealt and their play. */
  class Hand {
    const cards: seq<Card>
    const play: Play

    /** `Hand(deck)`: deals five cards, one `deal_card` after another, and
        evaluates them. `draws[i]` shuffles the replacement deck should the
        i-th deal find the deck empty. */
    constructor (deck: Deck, draws: seq<seq<nat>>)
      requires |draws| == 5
      requires forall i :: 0 <= i < 5 ==> |draws[i]| >= 51
      modifies deck
      ensures |cards| == 5
      ensures play == CalculateHandValue(cards)
      ensures var n := |old(deck.cards)|;
              var k := if n < 5 then n else 5;
              deck.cards == old(deck.cards)[..n - k] &&
              forall i :: 0 <= i < k ==> cards[i] == old(deck.cards)[n - 1 - i]
      ensures old(deck.Valid()) ==> deck.Valid()
      ensures old(deck.Valid()) && |old(deck.cards)| >= 5 ==> NoDuplicates(cards)
    {
      var dealt := DealFive(deck, draws);
      cards := dealt;
      play := CalculateHandValue(dealt);
    }

    /** `hand > other`: compares the plays as Python tuples; a higher kind
        wins whatever the tie-break values. */
    function Gt(other: Hand): (r: bool)
      ensures KindValue(play.kind) > KindValue(other.play.kind) ==> r
      ensures KindValue(play.kind) < KindValue(other.play.kind) ==> !r
      ensures r ==> !PlayGreater(other.play, play)
      ensures play.kind == other.play.kind ==> (r <==> ListGreater(play.key, other.play.key))
    {
      PlayTrichotomy(play, other.play);
      PlayGreater(play, other.play)
    }

    /** `hand == other`: equal plays; exactly the hands neither of which beats the other. */
    function Eq(other: Hand): (r: bool)
      ensures r <==> !Gt(other) && !other.Gt(this)
    {
      PlayTrichotomy(play, other.play);
      play == other.play
    }
  }
}
