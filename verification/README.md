# Scopa rule engine, modelled in Dafny

This project models the rule engine of a two-player Scopa simulator written in
Python (`scopa.py`). Scopa is played with a 40-card Italian deck: ranks A, 2–7,
J, Q, K in four suits. The modelled parts are:

- **Cards**: validating a rank and a suit, building a card, its numeric value
  and its two-character key.
- **The deck**: the 40 cards in the order of the rank and suit tables,
  `card_removal` and `deal_hand`.
- **The move generator** (`available_actions`):
  - the forced `collect_pile` when the opponent's hand is empty;
  - every capture, with the combinations enumerated exactly as
    `itertools.permutations` enumerates them;
  - the `discard` fallback.
- **The three moves** of one turn of `game()`: discard, collect and capture,
  with the sweep (scopa) counter.
- **The game loop of `game()`**: the opening deal, the redeal when both hands
  are empty, alternating turns, and the run to the end of the deck.
- **Scoring**: `calculate_primiera`, the nested `primiera_score` and the two
  final score sums.

Every random choice is a parameter:

- `random.sample(deck, n)` is modelled as successive picks. Each pick takes the
  card at `draw % remaining` and removes it.
- `random.choice(xs)` is modelled as `xs[draw % |xs|]`.
- A whole game reads its draws from a stream `rng: nat -> nat`.

Python's failures become values:

- The `assert`s of `deal_hand` and the `ValueError` of `sample` become `Err`
  values of a `Result` (`Deck.DealHand`).
- `list.remove` on a missing card becomes `None`, the empty value of an
  `Option`. This holds for `Lists.RemoveFirst` and for `Deck.CardRemoval`,
  which calls it once per removed card.
- A move whose `play_card` fails becomes `Err(CardNotInHand)` of a `Result`
  (`Moves.PlayMove`). A `choice` from an empty hand becomes
  `Err(EmptyHand)`.

The files, in dependency order:

- `wrappers.dfy`: `Option` and `Result`.
- `lists.dfy`: the list operations the source relies on: `list.remove`, the
  filter `[c for c in xs if c not in ys]`, and duplicate freedom.
- `cards.dfy`: ranks, suits, cards and the validation checks.
- `deck.dfy`: the deck, removal and dealing.
- `actions.dfy`: the permutation enumeration and `available_actions`.
- `moves.dfy`: one move on the mover's table (hand, board, pile).
- `scoring.dfy`: primiera, the primiera comparison and the final scores.
- `game.dfy`: the game state, the loop and its invariant.

### Where the code differs from the rules of Scopa

The model follows the code in each of these places:

- **Duplicate captures.** The rules of Scopa describe one capture per subset of board
  cards. The code enumerates permutations and never deduplicates them. So each
  ordering of the same board cards is a separate entry in the action list, and
  `choice` favours captures of more cards (`Actions.ReorderedCaptureOffered`,
  `Actions.CaptureOrderingsRepeat`).
- **Collect loses a card.** In the rules of Scopa, all 40 cards are always
  somewhere, and a collect only moves the board to the pile. In the code, the card
  played with `collect_pile` leaves the hand and goes nowhere. Each deal ends
  with such a collect, and a game has six deals. So 34 cards, not 40, end in
  the piles (`Game.GameOver`, `Game.PlayGame`). The loop invariant
  `Game.GameInv` counts the dropped cards instead.
- **Collect is forced.** `collect_pile` is the only action whenever the
  opponent's hand is empty, not only on the final play. This happens exactly on
  player 2's last card of each deal.
- **The last play is always a collect.** The rules of Scopa give no sweep for
  a capture on the last play of the game. The code has no such exception, and needs
  none: the game always ends with player 2's forced collect, played while
  player 1 holds no card, and a collect never scores a sweep
  (`Game.LastPlayIsCollect`).

## Model

| member | source | states |
|---|---|---|
| Cards.CardRankCheck | scopa.py:27-28 | a rank string is accepted exactly when it is one of the ten rank names |
| Cards.CardSuitCheck | scopa.py:30-31 | a suit string is accepted exactly when it is one of the four suit names |
| Cards.ParseRank | scopa.py:7-18 | a rank name maps back to the rank it names; an unknown name names no rank |
| Cards.ParseSuit | scopa.py:20-25 | a suit name maps back to the suit it names; an unknown name names no suit |
| Cards.NewCard | scopa.py:37-42 | building a card succeeds exactly when both checks pass; it fails on the rank first; a built card carries the given names |
| Cards.NewCardRoundTrip | scopa.py:37-42 | building a card from any card's own names gives back that card |
| Cards.CardValue | scopa.py:49-50 | a card's value lies in 1..10 and is its position in the rank table plus one |
| Cards.ValueDeterminesRank | scopa.py:7-18 | two cards have the same value exactly when they have the same rank |
| Cards.KeyInjective | scopa.py:53-54 | two cards have the same rank-plus-suit-letter key exactly when they are the same card |
| Cards.RankIndex | scopa.py:7-18 | every rank occurs in the rank table |
| Cards.SuitIndex | scopa.py:20-25 | every suit occurs in the suit table |
| Deck.FreshDeck | scopa.py:72-73 | a new deck holds 40 cards |
| Deck.FreshDeckPosition | scopa.py:72-73 | each card sits at position 4 × rank index + suit index, the order `product` gives |
| Deck.FreshDeckIsFull | scopa.py:72-73 | a new deck holds every card exactly once, and no two cards share a key |
| Deck.CardRemoval | scopa.py:75-77 | removal succeeds exactly when the removed cards are a sub-multiset of the deck; it then leaves the multiset difference |
| Deck.Sample | scopa.py:81 | a sample has as many cards as draws and takes them from the pool without repetition beyond the pool's own |
| Deck.DealHand | scopa.py:79-83 | dealing fails exactly for counts other than 3 and 4, or when the deck is too small; otherwise hand and remaining deck together are the old deck, with the right sizes |
| Deck.DealHandDistinct | scopa.py:79-83 | dealing 3 or 4 cards from a duplicate-free deck that holds enough succeeds, and the hand and the rest are duplicate-free and share no card |
| Lists.RemoveFirst | scopa.py:99-100 | `list.remove` succeeds exactly when the card is present and takes away one copy |
| Lists.Without | scopa.py:244 | the filter keeps every card not captured, with all its copies, and drops every captured card |
| Lists.WithoutRemovesExactly | scopa.py:244 | on a duplicate-free board the filter removes exactly the captured cards |
| Actions.ArrangementsSound | scopa.py:172 | every tuple `permutations(board, r)` yields has r cards taken from distinct board positions |
| Actions.ArrangementsComplete | scopa.py:172 | every ordering of distinct board cards is yielded by `permutations` |
| Actions.ArrangementsExact | scopa.py:172 | on a duplicate-free board, a tuple is yielded exactly when it is a duplicate-free ordering of board cards of that length |
| Actions.HandCapturesMember | scopa.py:166-175 | every capture entry pairs a hand card with an ordering whose values sum to the card's value |
| Actions.AvailableActions | scopa.py:158-181 | the list is never empty; it is `[collect_pile]` exactly when the opponent's hand is empty; otherwise it is `[discard]` or only captures |
| Actions.AvailableCapturesExact | scopa.py:158-181 | on a duplicate-free board, which `Game.BoardDistinct` guarantees in play, and with an opponent holding cards: a capture is offered exactly when it is legal, and discard is offered exactly when no capture is legal |
| Actions.OfferedCaptureFits | scopa.py:166-175 | an offered capture plays a hand card and takes between one and all of the board cards, summing to its value |
| Actions.ReorderedCaptureOffered | scopa.py:172-175 | on a duplicate-free board, which `Game.BoardDistinct` guarantees in play, every reordering of the cards of an offered capture is offered too, as a separate action |
| Actions.CaptureOrderingsRepeat | scopa.py:172-175 | a 7 facing a 4 and a 3 is offered both orderings of the same capture |
| Actions.SumPermutation | scopa.py:173 | the value sum of a combination does not depend on the order of its cards |
| Moves.PlayMove | scopa.py:229-245 | a move fails exactly when the hand is empty, or when the captured card is not in it; on success the played card leaves the hand and only that card |
| Moves.DiscardMove | scopa.py:229-232 | a discard appends the played card to the board, leaves the pile alone and loses no card |
| Moves.CollectMove | scopa.py:233-237 | a collect moves the board to the pile, clears the board, and loses the card played |
| Moves.CaptureMove | scopa.py:238-245 | on a duplicate-free board, which `Game.BoardDistinct` guarantees in play, and for a combo that is a sub-multiset of the board: a capture removes the captured cards from the board and adds the card and the captured cards to the pile; it scores a scopa exactly when it empties the board |
| Moves.CaptureKeepsCards | scopa.py:238-245 | a legal capture loses no card |
| Scoring.PrimieraValue | scopa.py:189-191 | every rank is worth between 10 and 21 primiera points |
| Scoring.SuitBestIsMax | scopa.py:195-197 | the best value of a suit bounds each of its cards, is reached by one, and is 0 exactly when the suit is missing |
| Scoring.PrimieraMeaning | scopa.py:188-202 | the suits covered are the pile's distinct suits; the sum lies between 10 and 21 per covered suit and is 0 exactly for an empty pile |
| Scoring.PrimieraScore | scopa.py:273-288 | exactly one player gets the primiera point, or neither |
| Scoring.PrimieraScoreLexicographic | scopa.py:273-288 | player 1 wins exactly with more suits, or with as many suits and a higher sum; symmetrically for player 2; a tie otherwise |
| Scoring.PrimieraScoreSwap | scopa.py:273-288 | swapping the players swaps the outcome |
| Scoring.FullCoverageWins | scopa.py:274-275 | a pile covering all four suits wins the primiera over one that does not |
| Scoring.KingsBeatSevens | scopa.py:188-202 | four kings (40 points, 4 suits) beat three sevens (63 points, 3 suits) |
| Scoring.DiamondCount | scopa.py:296 | the diamond count never exceeds the pile, is 0 exactly when the pile has no diamond, and equals the pile's size exactly when every card is a diamond |
| Scoring.DiamondCountOne | scopa.py:296 | a single card counts 1 exactly when it is a diamond, 0 otherwise |
| Scoring.DiamondCountConcat | scopa.py:296 | the count of two piles laid together is the sum of their counts, so the count is one per diamond card |
| Scoring.FinalScores | scopa.py:293-305 | each player's score lies between their scopas and their scopas plus 4 |
| Scoring.ScoresCountCategories | scopa.py:293-305 | each score is the number of categories the player wins plus their scopas |
| Scoring.PointsCountWins | scopa.py:294-297 | the four booleans summed count the categories won |
| Scoring.ScoresSymmetric | scopa.py:293-305 | swapping the piles swaps the scores |
| Scoring.CategoriesExclusive | scopa.py:293-305 | when the piles share no card, no category is won by both players, so they share at most 4 points besides the scopas |
| Scoring.NotBothWin | scopa.py:294-297 | with disjoint piles, no single category is won by both |
| Game.NewGameStarts | scopa.py:206-218 | the opening never fails: 4 board cards, 3 per hand, 30 in the deck, 40 distinct cards, player 1 to move |
| Game.RedealKeepsInvariant | scopa.py:221-223 | the redeal never fails and keeps the loop invariant; with both hands empty it moves six cards from deck to hands: the new deck and the two hands of three together hold exactly the old deck's cards; otherwise it changes nothing; the board, both piles and the player to move never change; the mover then holds a card |
| Game.ChosenMoveSucceeds | scopa.py:225-265 | the chosen action never fails for a mover holding cards; it keeps the table's cards, except that a collect loses one card and clears the board |
| Game.TurnKeepsInvariant | scopa.py:225-267 | a turn never fails, keeps the loop invariant, leaves the deck alone and plays exactly one card; the turn passes, and the opponent's hand and pile are unchanged |
| Game.LastPlayIsCollect | scopa.py:160-163 | with the deck empty, a turn that ends the game is player 2's, played with one card left against player 1's empty hand, and its action is the forced collect |
| Game.BoardDistinct | scopa.py:220 | under the loop invariant no card lies twice on the board |
| Game.GameOver | scopa.py:220 | when the loop stops, the board is empty and the piles hold 34 distinct cards between them |
| Game.PlayGame | scopa.py:204-305 | whatever the random draws, the game ends with empty deck, hands and board, 34 distinct cards in the piles, and scores that count categories won plus scopas, at most 4 category points in all |

## Left out

- The driver scripts are not part of this model. None of them calls `game()`.
  They run a logging variant of the game (`scopa_w_logging.py`, not part of
  this model) as separate processes, and they process the JSON logs those
  processes write. Threads, semaphores, locks, subprocesses and file I/O are
  outside a model of the rules:
  - `execution/parallel_scopa_sim.py` starts one thread per game, and each
    thread runs the game script through `subprocess.run`.
  - `execution/simple_parallelization.py` pairs a simulating thread with an
    analysing thread. They share a bounded buffer guarded by a lock and two
    semaphores.
  - `simple_parallelization.py` runs one game script in a subprocess, without
    threads, then processes its log.
  - `execution/parallel_scopa_proc.py` and
    `execution/parallel_scopa_analysis.py` parse the JSON logs and print only
    the number of actions processed.
- `PlayerPile.highest_primiera` (scopa.py:128-136) is not modelled. Nothing
  calls it, and its table uses suit names no card carries.
- `Player` (scopa.py:140-147) is not modelled. Nothing uses the two `Player`
  objects after they are built, and `__str__` reads a `score` attribute that
  is never set.
- All `print` output is not modelled: the scores, the point breakdown and the
  winner message (scopa.py:307-333).
- `Card.__str__` (scopa.py:45-46) and `Deck.__str__` (scopa.py:90-91) only
  build display strings. They are left out.
- The random number generator itself is not modelled. Each random choice
  becomes an explicit draw, so every possible game is covered.
- `Cards.CardRankCheck`: non-string arguments are not modelled. Python's
  `type(rank) == str` test has no counterpart, because the model's parameters
  are always strings.
- `Cards.CardSuitCheck`: non-string arguments are not modelled, for the same
  reason.
- Python's `__hash__` (scopa.py:66-67) is left out. Nothing in scopa.py puts
  a card in a set or a dictionary, so nothing uses it.
- `Deck.remaining_card_no`, `Deck.empty_deck`, `Hand.hand_cards_no` and
  `PlayerPile.pile_count` appear as sequence lengths.
- The `try/except` around the board length (scopa.py:167-170) cannot fail.
- `Deck.Sample`: it does not state that every draw sequence is possible or that
  the distribution is uniform. Only the outcome of a given sequence of draws is
  modelled.
