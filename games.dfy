/** A game: a shuffled deck, a dealt board, and the sets present on the board. */
module Games {
  import opened Attributes
  import opened Cards
  import opened Decks

  /** Number of cards dealt to the board by a new game. */
  const BoardSize: nat := 12

  /** Three board positions; a listed set refers to its cards by these indices. */
  datatype Triple = Triple(i: nat, j: nat, k: nat)

  /** A 3-combination of the positions 0..n-1, written in increasing order. */
  predicate IsCombination(n: nat, t: Triple)
  {
    t.i < t.j < t.k < n
  }

  /** Lexicographic order on index triples, the order in which combinations are produced. */
  predicate Before(a: Triple, b: Triple)
  {
    a.i < b.i || (a.i == b.i && (a.j < b.j || (a.j == b.j && a.k < b.k)))
  }

  /** The combination `t` passes the filter: the completion of its first two cards is its third. */
  predicate IsValidSet(board: seq<Card>, t: Triple)
  {
    IsCombination(|board|, t) && board[t.i].Complete(board[t.j]) == board[t.k]
  }

  ghost predicate Increasing(s: seq<Triple>)
  {
    forall a, b :: 0 <= a < b < |s| ==> Before(s[a], s[b])
  }

  /** `s` lists every valid combination of `board`, nothing else, once each and
      in lexicographic order. */
  ghost predicate ListsSets(board: seq<Card>, s: seq<Triple>)
  {
    && (forall t :: t in s ==> IsValidSet(board, t))
    && (forall t :: IsValidSet(board, t) ==> t in s)
    && Increasing(s)
  }

  /** A listed triple is a set by the rule of the game. */
  lemma ListedAreSets(board: seq<Card>, s: seq<Triple>, t: Triple)
    requires ListsSets(board, s) && t in s
    ensures IsCombination(|board|, t) && IsSet(board[t.i], board[t.j], board[t.k])
  {
  }

  lemma {:induction false} IncreasingFirstIsLeast(s: seq<Triple>, t: Triple)
    requires Increasing(s) && t in s
    ensures t == s[0] || Before(s[0], t)
  {
  }

  /** The specification admits exactly one listing: asking twice for the sets
      of the same board gives the same triples in the same order. */
  lemma {:induction false} ListingIsUnique(board: seq<Card>, s1: seq<Triple>, s2: seq<Triple>)
    requires ListsSets(board, s1) && ListsSets(board, s2)
    ensures s1 == s2
  {
    SameIncreasingSequences(s1, s2);
  }

  lemma {:induction false} SameIncreasingSequences(s1: seq<Triple>, s2: seq<Triple>)
    requires Increasing(s1) && Increasing(s2)
    requires forall t :: t in s1 <==> t in s2
    ensures s1 == s2
  {
    if s1 == [] {
      NonEmptyHasFirst(s2);
    } else {
      assert s1[0] in s2;
      assert s2 != [];
      assert s2[0] in s1;
      assert s1[0] == s2[0] by {
        IncreasingFirstIsLeast(s1, s2[0]);
        IncreasingFirstIsLeast(s2, s1[0]);
      }
      forall t
        ensures t in s1[1..] <==> t in s2[1..]
      {
        if t in s1[1..] {
          TailMember(s1, s2, t);
        }
        if t in s2[1..] {
          TailMember(s2, s1, t);
        }
      }
      SameIncreasingSequences(s1[1..], s2[1..]);
    }
  }

  lemma NonEmptyHasFirst(s: seq<Triple>)
    ensures s != [] ==> s[0] in s
  {
  }

  /** A later element of one listing is a later element of the other. */
  lemma TailMember(s1: seq<Triple>, s2: seq<Triple>, t: Triple)
    requires Increasing(s1) && Increasing(s2) && s1 != [] && s2 != []
    requires s1[0] == s2[0]
    requires forall u :: u in s1 <==> u in s2
    requires t in s1[1..]
    ensures t in s2[1..]
  {
    var m :| 1 <= m < |s1| && s1[m] == t;
    assert Before(s1[0], t);
    assert t in s2;
    var m' :| 0 <= m' < |s2| && s2[m'] == t;
    assert m' != 0;
    assert s2[1..][m' - 1] == t;
  }

  /** A board of four cards on which exactly one combination, (0, 1, 2), is a set. */
  function ExampleBoard(): seq<Card>
  {
    [Card(First, First, First, First), Card(Second, Second, Second, Second),
     Card(Third, Third, Third, Third), Card(First, Second, Third, First)]
  }

  /** On the example board the only listing is the single triple (0, 1, 2). */
  lemma ExampleBoardHasOneSet(s: seq<Triple>)
    requires ListsSets(ExampleBoard(), s)
    ensures s == [Triple(0, 1, 2)]
  {
    var board := ExampleBoard();
    forall t | IsValidSet(board, t)
      ensures t == Triple(0, 1, 2)
    {
      assert t.k < 4;
    }
    assert IsValidSet(board, Triple(0, 1, 2));
    ListingIsUnique(board, s, [Triple(0, 1, 2)]);
  }

  /** When deck and board together form a full deck, the board holds no card
      twice and shares no card with the deck. */
  lemma DealtCardsAreDistinct(rest: seq<Card>, board: seq<Card>)
    requires IsFullDeck(rest + board)
    ensures NoDuplicates(board)
    ensures forall c :: c in board ==> c !in rest
  {
    var all := rest + board;
    FullDeckHasEveryCardOnce(all, Card(First, First, First, First));
    forall m, n | 0 <= m < n < |board|
      ensures board[m] != board[n]
    {
      assert board[m] == all[|rest| + m] && board[n] == all[|rest| + n];
    }
    forall c | c in board
      ensures c !in rest
    {
      var n :| 0 <= n < |board| && board[n] == c;
      assert all[|rest| + n] == c;
      forall m | 0 <= m < |rest|
        ensures rest[m] != c
      {
        assert all[m] == rest[m];
      }
    }
  }

  class Game {
    /** The cards left after dealing the board. */
    var deck: Deck
    var board: seq<Card>

    /** A new game: a full shuffled deck from which the board is dealt. */
    constructor ()
      ensures fresh(deck)
      ensures |board| == BoardSize && |deck.cards| == 81 - BoardSize
      ensures IsFullDeck(deck.cards + board)
    {
      var d := new Deck();
      var dealt := d.Deal(BoardSize);
      deck, board := d, dealt;
    }

    /** All the sets on the board: every combination i < j < k of board
        positions whose first two cards complete to the third, in
        lexicographic order. */
    method Sets() returns (sets: seq<Triple>)
      ensures ListsSets(board, sets)
      ensures |board| < 3 ==> sets == []
    {
      sets := [];
      var n := |board|;
      for i := 0 to n
        invariant forall t :: t in sets ==> IsValidSet(board, t) && t.i < i
        invariant forall t :: IsValidSet(board, t) && t.i < i ==> t in sets
        invariant Increasing(sets)
      {
        for j := i + 1 to n
          invariant forall t :: t in sets ==> IsValidSet(board, t) && (t.i < i || (t.i == i && t.j < j))
          invariant forall t :: IsValidSet(board, t) && (t.i < i || (t.i == i && t.j < j)) ==> t in sets
          invariant Increasing(sets)
        {
          for k := j + 1 to n
            invariant forall t :: t in sets ==> IsValidSet(board, t) && Before(t, Triple(i, j, k))
            invariant forall t :: IsValidSet(board, t) && Before(t, Triple(i, j, k)) ==> t in sets
            invariant Increasing(sets)
          {
            if board[i].Complete(board[j]) == board[k] {
              sets := sets + [Triple(i, j, k)];
            }
          }
        }
      }
      assert sets != [] ==> sets[0] in sets;
    }
  }
}
