/** The 81-card deck: built as the product of the attribute values, shuffled,
    and dealt from its tail. */
module Decks {
  import opened Attributes
  import opened Cards

  /** The attribute values in the order the product iterates over them. */
  const Variants: seq<Property> := [First, Second, Third]

  /** Position of a value in `Variants`. */
  function Digit(p: Property): (d: nat)
    ensures d < |Variants| && Variants[d] == p
  {
    match p
    case First => 0
    case Second => 1
    case Third => 2
  }

  lemma DigitOfVariant(d: nat)
    requires d < |Variants|
    ensures Digit(Variants[d]) == d
  {
  }

  /** Position of a card in the product enumeration, read as a base-3 number
      whose most significant digit is the shape and least significant the count. */
  function Rank(c: Card): (n: nat)
    ensures n < 81
  {
    27 * Digit(c.shape) + 9 * Digit(c.shading) + 3 * Digit(c.color) + Digit(c.count)
  }

  /** No two cards share a position. */
  lemma RankInjective(x: Card, y: Card)
    requires Rank(x) == Rank(y)
    ensures x == y
  {
  }

  /** The deck before shuffling: 81 cards, the card at position n having rank n. */
  ghost predicate InProductOrder(s: seq<Card>)
  {
    |s| == 81 && forall n :: 0 <= n < |s| ==> Rank(s[n]) == n
  }

  /** Every one of the 81 possible cards occurs exactly once. */
  ghost predicate IsFullDeck(s: seq<Card>)
  {
    |s| == 81 && forall c: Card :: multiset(s)[c] == 1
  }

  predicate NoDuplicates<T(==)>(s: seq<T>)
  {
    forall m, n :: 0 <= m < n < |s| ==> s[m] != s[n]
  }

  /** An element of a sequence without duplicates occurs in it exactly once. */
  lemma {:induction false} NoDuplicatesCount<T>(s: seq<T>, x: T)
    requires NoDuplicates(s) && x in s
    ensures multiset(s)[x] == 1
  {
    assert s == [s[0]] + s[1..];
    if s[0] == x {
      assert x !in s[1..];
    } else {
      assert NoDuplicates(s[1..]);
      NoDuplicatesCount(s[1..], x);
    }
  }

  /** The product enumeration lists every card exactly once. */
  lemma ProductIsFullDeck(s: seq<Card>)
    requires InProductOrder(s)
    ensures IsFullDeck(s)
  {
    forall m, n | 0 <= m < n < |s|
      ensures s[m] != s[n]
    {
    }
    forall c: Card
      ensures multiset(s)[c] == 1
    {
      RankInjective(s[Rank(c)], c);
      NoDuplicatesCount(s, c);
    }
  }

  /** A full deck holds every card, and no card twice. */
  lemma FullDeckHasEveryCardOnce(s: seq<Card>, c: Card)
    requires IsFullDeck(s)
    ensures c in s
    ensures NoDuplicates(s)
  {
    assert multiset(s)[c] == 1;
    forall m, n | 0 <= m < n < |s|
      ensures s[m] != s[n]
    {
      assert s == s[..n] + s[n..];
      assert multiset(s) == multiset(s[..n]) + multiset(s[n..]);
      assert s[m] in s[..n] && s[n] in s[n..];
      assert multiset(s[..n])[s[m]] >= 1 && multiset(s[n..])[s[n]] >= 1;
      assert multiset(s)[s[m]] == multiset(s[..n])[s[m]] + multiset(s[n..])[s[m]];
    }
  }

  /** Builds the deck in the order of the four-way product: shape varies
      slowest, count fastest. */
  method ProductDeck() returns (cards: seq<Card>)
    ensures InProductOrder(cards)
  {
    cards := [];
    for a := 0 to |Variants|
      invariant |cards| == 27 * a
      invariant forall n :: 0 <= n < |cards| ==> Rank(cards[n]) == n
    {
      for b := 0 to |Variants|
        invariant |cards| == 27 * a + 9 * b
        invariant forall n :: 0 <= n < |cards| ==> Rank(cards[n]) == n
      {
        for c := 0 to |Variants|
          invariant |cards| == 27 * a + 9 * b + 3 * c
          invariant forall n :: 0 <= n < |cards| ==> Rank(cards[n]) == n
        {
          for d := 0 to |Variants|
            invariant |cards| == 27 * a + 9 * b + 3 * c + d
            invariant forall n :: 0 <= n < |cards| ==> Rank(cards[n]) == n
          {
            DigitOfVariant(a);
            DigitOfVariant(b);
            DigitOfVariant(c);
            DigitOfVariant(d);
            cards := cards + [Card(Variants[a], Variants[b], Variants[c], Variants[d])];
          }
        }
      }
    }
  }

  /** Fisher-Yates shuffle in the shape of the slice shuffle the deck uses:
      for i from the last index down to 1, swap position i with a position j
      in 0..i. The random choice of j is left unconstrained. */
  method Shuffle<T>(s: seq<T>) returns (t: seq<T>)
    ensures |t| == |s|
    ensures multiset(t) == multiset(s)
  {
    t := s;
    var i := |t|;
    while i > 1
      invariant 0 <= i <= |t| == |s|
      invariant multiset(t) == multiset(s)
    {
      i := i - 1;
      var j :| 0 <= j <= i;
      t := t[i := t[j]][j := t[i]];
    }
  }

  function Min(a: nat, b: nat): nat
  {
    if a <= b then a else b
  }

  /** Dealing `amount` cards: the pair (cards kept, cards dealt). At most the
      whole deck is dealt, and the dealt cards are taken from the tail. */
  function DealSplit(cards: seq<Card>, amount: nat): (r: (seq<Card>, seq<Card>))
    ensures |r.1| == Min(amount, |cards|)
    ensures r.0 + r.1 == cards
    ensures amount >= |cards| ==> r.0 == [] && r.1 == cards
  {
    var at := |cards| - Min(amount, |cards|);
    (cards[..at], cards[at..])
  }

  /** Dealing neither creates nor loses cards. */
  lemma DealSplitKeepsCards(cards: seq<Card>, amount: nat)
    ensures multiset(DealSplit(cards, amount).0) + multiset(DealSplit(cards, amount).1) == multiset(cards)
  {
  }

  class Deck {
    var cards: seq<Card>

    /** A fresh deck: the product of the attribute values, shuffled. */
    constructor ()
      ensures IsFullDeck(cards)
    {
      var deck := ProductDeck();
      ProductIsFullDeck(deck);
      deck := Shuffle(deck);
      cards := deck;
    }

    /** Removes `Min(amount, |cards|)` cards from the tail and returns them in order. */
    method Deal(amount: nat) returns (dealt: seq<Card>)
      modifies this
      ensures (cards, dealt) == DealSplit(old(cards), amount)
      ensures |dealt| == Min(amount, |old(cards)|)
      ensures |cards| == |old(cards)| - |dealt|
      ensures cards + dealt == old(cards)
    {
      var n := Min(amount, |cards|);
      var at := |cards| - n;
      dealt := cards[at..];
      cards := cards[..at];
    }
  }
}
