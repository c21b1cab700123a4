/** Playing cards and the 52-card deck: `Card`, `Deck.Suit`, `Deck.CardName`
    and the `Deck` stack that hands are dealt from. */
module Decks {
  import opened Seqs

  datatype Option<T> = None | Some(value: T)

  /** `Deck.Suit`; suits are compared only for equality. */
  datatype Suit = Clubs | Hearts | Pikes | Diamonds

  /** `Deck.CardName`, weakest to strongest; ACE is always high. */
  datatype CardName =
    Two | Three | Four | Five | Six | Seven | Eight | Nine | Ten | Jack | Queen | King | Ace

  /** The suits in declaration order, the order `for suit in Deck.Suit` visits them. */
  const AllSuits: seq<Suit> := [Clubs, Hearts, Pikes, Diamonds]

  /** The card names in declaration order. */
  const AllCardNames: seq<CardName> :=
    [Two, Three, Four, Five, Six, Seven, Eight, Nine, Ten, Jack, Queen, King, Ace]

  /** The integer `auto()` gives each `CardName`: TWO is 1 and ACE is 13. */
  function Strength(n: CardName): (v: int)
    ensures 1 <= v <= 13
    ensures v == 1 <==> n == Two
    ensures v == 9 <==> n == Ten
    ensures v == 13 <==> n == Ace
  {
    match n
    case Two => 1
    case Three => 2
    case Four => 3
    case Five => 4
    case Six => 5
    case Seven => 6
    case Eight => 7
    case Nine => 8
    case Ten => 9
    case Jack => 10
    case Queen => 11
    case King => 12
    case Ace => 13
  }

  /** The strengths number the card names 1, 2, ..., 13 in declaration order,
      so they strictly increase and no two names share a strength. */
  lemma StrengthFollowsDeclarationOrder()
    ensures |AllCardNames| == 13
    ensures forall i :: 0 <= i < |AllCardNames| ==> Strength(AllCardNames[i]) == i + 1
    ensures forall n :: AllCardNames[Strength(n) - 1] == n
    ensures NoDuplicates(AllCardNames)
  {
    forall n: CardName
      ensures AllCardNames[Strength(n) - 1] == n
    {
      match n {
        case Two =>
        case Three =>
        case Four =>
        case Five =>
        case Six =>
        case Seven =>
        case Eight =>
        case Nine =>
        case Ten =>
        case Jack =>
        case Queen =>
        case King =>
        case Ace =>
      }
    }
  }

  /** A strength names exactly one card name. */
  lemma StrengthInjective(a: CardName, b: CardName)
    ensures Strength(a) == Strength(b) <==> a == b
  {
  }

  /** An immutable (name, suit) pair. */
  datatype Card = Card(name: CardName, suit: Suit)
  {
    /** `Card.value`: the strength of the card's name. */
    function Value(): (v: int)
      ensures 1 <= v <= 13
      ensures v == 1 <==> name == Two
      ensures v == 9 <==> name == Ten
      ensures v == 13 <==> name == Ace
    {
      Strength(name)
    }
  }

  /** The value of a card is fixed by its name alone: the suit plays no part,
      and two cards of equal value have the same name. */
  lemma ValueIsNameStrength(c: Card, d: Card)
    ensures c.Value() == Strength(c.name)
    ensures c.Value() == d.Value() <==> c.name == d.name
  {
    StrengthInjective(c.name, d.name);
  }

  /** The thirteen cards of one suit, in `CardName` order. */
  function SuitRow(suit: Suit): seq<Card>
  {
    Project(AllCardNames, (n: CardName) => Card(n, suit))
  }

  /** The rows of the given suits, one after the other. */
  function Rows(suits: seq<Suit>): seq<Card>
  {
    if suits == [] then [] else SuitRow(suits[0]) + Rows(suits[1..])
  }

  /** The card at position `i` of the rows: the suit changes every thirteen
      cards, and within a suit the names follow declaration order. */
  lemma {:induction false} RowsAt(suits: seq<Suit>, i: int)
    requires 0 <= i < 13 * |suits|
    ensures i < |Rows(suits)|
    ensures Rows(suits)[i] == Card(AllCardNames[i % 13], suits[i / 13])
    decreases |suits|
  {
    var row := SuitRow(suits[0]);
    assert |row| == 13;
    if 13 <= i {
      RowsAt(suits[1..], i - 13);
      assert (i - 13) % 13 == i % 13 && (i - 13) / 13 == i / 13 - 1;
    }
  }

  lemma RowsEverywhere(suits: seq<Suit>)
    requires NoDuplicates(suits)
    ensures |Rows(suits)| == 13 * |suits|
    ensures forall i :: 0 <= i < 13 * |suits| ==>
      Rows(suits)[i] == Card(AllCardNames[i % 13], suits[i / 13])
  {
    RowsMultiplicity(suits, Card(Two, Clubs));
    forall i | 0 <= i < 13 * |suits|
      ensures Rows(suits)[i] == Card(AllCardNames[i % 13], suits[i / 13])
    {
      RowsAt(suits, i);
    }
  }

  /** `[Card(card, suit) for suit in Deck.Suit for card in Deck.CardName]`:
      the unshuffled deck, the suit in the outer loop and the name in the inner one. */
  function FreshOrder(): (deck: seq<Card>)
    ensures |deck| == 52
    ensures forall i :: 0 <= i < 52 ==> deck[i] == Card(AllCardNames[i % 13], AllSuits[i / 13])
  {
    assert NoDuplicates(AllSuits);
    RowsEverywhere(AllSuits);
    Rows(AllSuits)
  }

  /** A row holds exactly the cards of its suit, each once. */
  lemma SuitRowMultiplicity(suit: Suit, c: Card)
    ensures |SuitRow(suit)| == 13
    ensures multiset(SuitRow(suit))[c] == if c.suit == suit then 1 else 0
  {
    StrengthFollowsDeclarationOrder();
    var row := SuitRow(suit);
    forall i, j | 0 <= i < j < |row|
      ensures row[i] != row[j]
    {
      assert row[i].name == AllCardNames[i] && row[j].name == AllCardNames[j];
    }
    MultiplicityInDistinct(row, c);
    if c.suit == suit {
      assert row[Strength(c.name) - 1] == c;
    }
  }

  lemma {:induction false} RowsMultiplicity(suits: seq<Suit>, c: Card)
    requires NoDuplicates(suits)
    ensures |Rows(suits)| == 13 * |suits|
    ensures multiset(Rows(suits))[c] == if c.suit in suits then 1 else 0
  {
    if suits != [] {
      assert suits == [suits[0]] + suits[1..];
      assert NoDuplicates(suits[1..]);
      RowsMultiplicity(suits[1..], c);
      SuitRowMultiplicity(suits[0], c);
    }
  }

  /** A fresh deck has 52 cards and holds every (name, suit) pair exactly once. */
  lemma FreshDeckHoldsEachCardOnce()
    ensures |FreshOrder()| == 52
    ensures forall c: Card :: multiset(FreshOrder())[c] == 1
    ensures NoDuplicates(FreshOrder())
  {
    var full := FreshOrder();
    assert NoDuplicates(AllSuits);
    forall c: Card
      ensures multiset(full)[c] == 1
    {
      assert c.suit in AllSuits by {
        match c.suit {
          case Clubs => assert AllSuits[0] == c.suit;
          case Hearts => assert AllSuits[1] == c.suit;
          case Pikes => assert AllSuits[2] == c.suit;
          case Diamonds => assert AllSuits[3] == c.suit;
        }
      }
      RowsMultiplicity(AllSuits, c);
    }
    RowsMultiplicity(AllSuits, Card(Two, Clubs));
    MultiplicitiesAtMostOne(full);
  }

  /** `random.shuffle(s)`, CPython's Fisher-Yates pass: for i from |s| - 1 down
      to 1 it swaps position i with a position j <= i drawn at random. The k-th
      random draw `randbelow(i + 1)` is `draws[k] % (i + 1)`. */
  method Shuffle<T>(s: seq<T>, draws: seq<nat>) returns (r: seq<T>)
    requires |s| <= |draws| + 1
    ensures |r| == |s|
    ensures multiset(r) == multiset(s)
  {
    r := s;
    var i := |r| - 1;
    while i > 0
      invariant i < |r| == |s|
      invariant multiset(r) == multiset(s)
    {
      var j := draws[|r| - 1 - i] % (i + 1);
      r := r[i := r[j]][j := r[i]];
      i := i - 1;
    }
  }

  /** The deck: `cards` is `self._deck`, a list used as a stack whose top is its end. */
  class Deck {
    var cards: seq<Card>

    /** No card is in the deck twice. */
    predicate Valid()
      reads this
    {
      NoDuplicates(cards)
    }

    /** `Deck()`: all 52 cards, shuffled by `draws`. */
    constructor (draws: seq<nat>)
      requires |draws| >= 51
      ensures Valid()
      ensures |cards| == 52
      ensures multiset(cards) == multiset(FreshOrder())
      ensures forall c: Card :: c in cards
    {
      FreshDeckHoldsEachCardOnce();
      var ordered := FreshOrder();
      var shuffled := Shuffle(ordered, draws);
      PermutationKeepsDistinct(ordered, shuffled);
      forall c: Card
        ensures c in shuffled
      {
        assert c in multiset(ordered);
      }
      cards := shuffled;
    }

    /** `len(deck)` */
    function Len(): (n: nat)
      reads this
      ensures n == |cards|
    {
      |cards|
    }

    /** `deck[position]`, with Python's negative positions counting from the
        top; None stands for the IndexError of a position out of range. */
    function At(position: int): (r: Option<Card>)
      reads this
      ensures r.Some? <==> -|cards| <= position < |cards|
      ensures 0 <= position < |cards| ==> r == Some(cards[position])
      ensures -|cards| <= position < 0 ==> r == Some(cards[|cards| + position])
    {
      if 0 <= position < |cards| then Some(cards[position])
      else if -|cards| <= position < 0 then Some(cards[|cards| + position])
      else None
    }

    /** `self._deck.pop()`; None stands for the IndexError of an empty list. */
    method Pop() returns (c: Option<Card>)
      modifies this
      ensures old(cards) == [] ==> c == None && cards == []
      ensures old(cards) != [] ==>
        c == Some(old(cards)[|old(cards)| - 1]) && cards == old(cards)[..|old(cards)| - 1]
    {
      if cards == [] {
        c := None;
      } else {
        c := Some(cards[|cards| - 1]);
        cards := cards[..|cards| - 1];
      }
    }

    /** `deal_card`: pops the top card. On an empty deck it builds a new deck
        (shuffled by `draws`) and pops that one's top card; the assignment
        `self = Deck()` only rebinds a local name, so this deck stays empty. */
    method DealCard(draws: seq<nat>) returns (c: Card)
      requires |draws| >= 51
      modifies this
      ensures old(cards) != [] ==>
        c == old(cards)[|old(cards)| - 1] && cards == old(cards)[..|old(cards)| - 1]
      ensures old(cards) == [] ==> cards == []
      ensures Len() == if old(Len()) == 0 then 0 else old(Len()) - 1
      ensures old(Valid()) ==> Valid()
    {
      var deck := this;
      if cards == [] {
        deck := new Deck(draws);
      }
      var popped := deck.Pop();
      c := popped.value;
    }

    /** `get_initial_cards`: `[pop(), pop()]`, the top card then the one below.
        None stands for the IndexError raised when a pop finds the deck empty;
        a deck holding one card loses it to the first pop before the error. */
    method GetInitialCards() returns (r: Option<seq<Card>>)
      modifies this
      ensures |old(cards)| >= 2 ==>
        r == Some([old(cards)[|old(cards)| - 1], old(cards)[|old(cards)| - 2]]) &&
        cards == old(cards)[..|old(cards)| - 2]
      ensures |old(cards)| < 2 ==> r == None && cards == []
      ensures old(Valid()) ==> Valid()
    {
      var first := Pop();
      if first == None {
        return None;
      }
      var second := Pop();
      if second == None {
        return None;
      }
      r := Some([first.value, second.value]);
    }
  }
}
