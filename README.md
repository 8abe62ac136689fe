# Set card game: verified model

A Dafny model of the library behind the card game "Set" (`src/lib.rs`). It covers four parts:

- the three-valued card attribute `Property` and its completion operation;
- the card, made of four attributes (shape, shading, color, count), and the card that completes a pair of cards;
- the deck, built as the 81-card product of the attribute values, shuffled, and dealt from its tail;
- the game, which deals a board of 12 cards and lists every combination of three board positions that forms a set.

Modules and files:

- `attributes.dfy`, module `Attributes`: `Property`, `Property.Complete` (the Rust method `third`; `Third` is already the name of a variant) and `Balanced`, the all-equal-or-all-distinct test.
- `cards.dfy`, module `Cards`: `Card`, `Card.Complete` and `IsSet`, the rule of the game.
- `decks.dfy`, module `Decks`: the product enumeration (`ProductDeck`, specified through `Rank`, the position of a card read as a base-3 number), `Shuffle`, the `Deck` class and `DealSplit`, the pure specification of dealing.
- `games.dfy`, module `Games`: index triples, the specification `ListsSets` of what the set finder yields, and the `Game` class.

`Game::sets` yields vectors of references to board cards. The model returns the board positions `Triple(i, j, k)` of those cards instead. `ListsSets(board, s)` says that `s` holds every valid combination i < j < k of the board, holds nothing else, and is in strictly increasing lexicographic order. `ListingIsUnique` proves that exactly one sequence meets that description. It follows that the triple loop in `Game.Sets` computes the same sequence as the combinations-then-filter chain of the source: no triple missing, none duplicated, same order.

The random number generator is not modelled. `Shuffle` follows the shape of the rand crate's slice shuffle: for each index i from the last down to 1, it swaps position i with some position j in 0..i. The choice of j is nondeterministic (`:|`), so the only thing proved about the result is that it is a permutation.

## Model

| member | source | states |
|---|---|---|
| `Attributes.Property.Complete` | src/lib.rs:16-24 | equal operands complete to themselves; distinct operands complete to a value different from both |
| `Attributes.CompleteCommutes` | src/lib.rs:16-24 | completion is commutative on all nine pairs |
| `Attributes.CompleteSelf` | src/lib.rs:18-20 | `x.Complete(x) == x` |
| `Attributes.CompleteRecovers` | src/lib.rs:21-23 | completing again with the first operand gives back the second |
| `Attributes.CompleteIffBalanced` | src/lib.rs:16-24 | `a.Complete(b) == c` exactly when a, b, c are all equal or pairwise distinct, so the completing value is unique |
| `Attributes.BalancedSymmetric` | src/lib.rs:17-23 | the all-equal-or-all-distinct condition does not depend on the order of the three values |
| `Cards.Card.Complete` | src/lib.rs:78-85 | the completed card forms a set with the two given cards in every dimension |
| `Cards.CompleteIffSet` | src/lib.rs:78-85 | `x.Complete(y) == z` exactly when, in each of the four dimensions, the three values are all equal or pairwise distinct |
| `Cards.CompleteCommutes` | src/lib.rs:78-85 | card completion is commutative |
| `Cards.CompleteRecovers` | src/lib.rs:78-85 | `x.Complete(x.Complete(y)) == y` |
| `Cards.CompleteDistinct` | src/lib.rs:78-85 | two different cards are completed by a card different from both |
| `Cards.IsSetSymmetric` | src/lib.rs:153 | being a set does not depend on the order of the three cards |
| `Decks.DigitOfVariant` | src/lib.rs:95 | `Digit` inverts indexing into the variant list |
| `Decks.RankInjective` | src/lib.rs:96-107 | different cards have different product positions |
| `Decks.ProductDeck` | src/lib.rs:94-108 | the product loop yields 81 cards, with the card of product position n at index n (shape slowest, count fastest) |
| `Decks.ProductIsFullDeck` | src/lib.rs:94-108 | the product enumeration contains every one of the 81 cards exactly once |
| `Decks.FullDeckHasEveryCardOnce` | src/lib.rs:94-113 | a full deck contains any given card and has no duplicates |
| `Decks.Shuffle` | src/lib.rs:110-111 | the shuffled sequence has the same length and the same multiset of cards |
| `Decks.Deck.constructor` | src/lib.rs:93-114 | a new deck holds every one of the 81 cards exactly once |
| `Decks.DealSplit` | src/lib.rs:116-119 | `Min(amount, len)` cards are dealt; kept cards followed by dealt cards give back the deck; a request of at least the whole deck deals everything and keeps nothing |
| `Decks.DealSplitKeepsCards` | src/lib.rs:116-119 | dealing neither creates nor loses cards |
| `Decks.Deck.Deal` | src/lib.rs:116-119 | returns the last `Min(amount, len)` cards in order; the deck shrinks to the old prefix and nothing else changes |
| `Games.Game.constructor` | src/lib.rs:134-137 | board of 12 cards, deck of 69, and the two together form a full deck |
| `Games.DealtCardsAreDistinct` | src/lib.rs:134-137 | no card occurs twice on the board, and no board card is still in the deck |
| `Games.Game.Sets` | src/lib.rs:149-154 | yields exactly the combinations i < j < k with `board[i].Complete(board[j]) == board[k]`, in strictly increasing lexicographic order, and nothing when the board has fewer than three cards; the board is unchanged |
| `Games.ListedAreSets` | src/lib.rs:149-154 | every listed triple is a set by the rule of the game |
| `Games.ListingIsUnique` | src/lib.rs:149-154 | exactly one sequence satisfies the listing specification, so repeated calls on one board agree |
| `Games.SameIncreasingSequences` | src/lib.rs:152 | two strictly increasing sequences of triples with the same elements are equal |
| `Games.ExampleBoardHasOneSet` | src/lib.rs:149-154 | on a 4-card board with exactly one set, the listing is that single triple |

## Left out

- The `Display` implementation for `Card` (src/lib.rs:36-75): presentation only, with glyphs and terminal colours from a foreign crate.
- `Game::print_board` (src/lib.rs:140-147) and the command-line program `src/bin/demo.rs`: terminal output.
- `Game::default` (src/lib.rs:127-131): it only calls `Game::new`.
- The random source of the shuffle: the swap partner is chosen nondeterministically. The model makes no claim that the permutation is uniform.
- The laziness of the combinations iterator: `Game.Sets` builds the whole sequence.
- The references to cards in each yielded set: modelled as board indices.
- `usize` arithmetic: `amount` is a `nat`. The source cannot underflow because it first clamps `amount` to the deck length, and the model has the same clamp.
- The board size is the constant 12, as in the source. It is not a configuration parameter.
