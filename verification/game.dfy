/** The state machine of `game()`: the opening deal, the redeal when both
    hands are empty, one turn per loop iteration, and the whole game run
    from a stream of random draws to the final scores. */
module Game {
  import opened Wrappers
  import opened Lists
  import opened Cards
  import opened Deck
  import opened Actions
  import opened Moves
  import opened Scoring

  /** `current_player`: 1 or 2. */
  datatype Player = P1 | P2

  /** The local variables of `game()` at the top of its loop. */
  datatype GameState = GameState(
    deck: seq<Card>,
    hand1: seq<Card>,
    hand2: seq<Card>,
    board: seq<Card>,
    pile1: Pile,
    pile2: Pile,
    current: Player)

  datatype GameError = DealFailed(deal: DealError) | MoveFailed(move: MoveError)

  /** Every card of the state, wherever it lies. */
  function AllCards(s: GameState): multiset<Card> {
    multiset(s.deck) + multiset(s.hand1) + multiset(s.hand2) + multiset(s.board)
    + multiset(s.pile1.cards) + multiset(s.pile2.cards)
  }

  /** The loop condition of `game()`. */
  predicate Running(s: GameState) {
    |s.deck| > 0 || |s.hand1| > 0 || |s.hand2| > 0
  }

  /** The opening of `game()`: four board cards, then three cards to each
      player, player 1 to move. */
  function NewGame(boardDraws: seq<nat>, draws1: seq<nat>, draws2: seq<nat>): Result<GameState, GameError>
    requires |boardDraws| == 4 && |draws1| == 3 && |draws2| == 3
  {
    match DealHand(FreshDeck(), 4, boardDraws)
    case Err(e) => Err(DealFailed(e))
    case Ok(b) =>
      match DealHand(b.rest, 3, draws1)
      case Err(e) => Err(DealFailed(e))
      case Ok(h1) =>
        match DealHand(h1.rest, 3, draws2)
        case Err(e) => Err(DealFailed(e))
        case Ok(h2) => Ok(GameState(h2.rest, h1.hand, h2.hand, b.hand, Pile([], 0), Pile([], 0), P1))
  }

  /** The head of the loop body: when both hands are empty and the deck is
      not, three fresh cards to player 1 and then to player 2. */
  function Redeal(s: GameState, draws1: seq<nat>, draws2: seq<nat>): Result<GameState, GameError>
    requires |draws1| == 3 && |draws2| == 3
  {
    if |s.hand1| == 0 && |s.hand2| == 0 && |s.deck| > 0 then
      match DealHand(s.deck, 3, draws1)
      case Err(e) => Err(DealFailed(e))
      case Ok(h1) =>
        match DealHand(h1.rest, 3, draws2)
        case Err(e) => Err(DealFailed(e))
        case Ok(h2) => Ok(s.(deck := h2.rest, hand1 := h1.hand, hand2 := h2.hand))
    else Ok(s)
  }

  function MoverHand(s: GameState): seq<Card> {
    if s.current == P1 then s.hand1 else s.hand2
  }

  function OpponentHand(s: GameState): seq<Card> {
    if s.current == P1 then s.hand2 else s.hand1
  }

  function OpponentPile(s: GameState): Pile {
    if s.current == P1 then s.pile2 else s.pile1
  }

  function MoverTable(s: GameState): Table {
    Table(MoverHand(s), s.board, if s.current == P1 then s.pile1 else s.pile2)
  }

  /** The action `choice` picks with draw `actionDraw` from the generator's
      list for the player to move. */
  function ChosenAction(s: GameState, actionDraw: nat): Action {
    var actions := AvailableActions(MoverHand(s), s.board, OpponentHand(s));
    actions[actionDraw % |actions|]
  }

  /** The rest of the loop body: the player to move plays the chosen
      action, then the turn passes to the other player. */
  function Turn(s: GameState, actionDraw: nat, cardDraw: nat): Result<GameState, GameError> {
    match PlayMove(MoverTable(s), ChosenAction(s, actionDraw), cardDraw)
    case Err(e) => Err(MoveFailed(e))
    case Ok(t) => Ok(Place(s, t))
  }

  /** The state after the mover's table became `t`: the turn passes. */
  function Place(s: GameState, t: Table): GameState {
    if s.current == P1 then s.(hand1 := t.hand, board := t.board, pile1 := t.pile, current := P2)
    else s.(hand2 := t.hand, board := t.board, pile2 := t.pile, current := P1)
  }

  /** Cards dropped so far by collect moves: the forced collect ends each
      deal of six cards, one deal per six cards gone from a deck of 30. */
  function Dropped(s: GameState): int {
    (30 - |s.deck|) / 6 + (if |s.hand1| == 0 && |s.hand2| == 0 then 1 else 0)
  }

  /** The sizes of a state at the top of the loop: a deck of six cards per
      remaining deal, player 1 moving when the hands are level and player 2
      when it holds one card more, and an empty board between deals. */
  predicate Shape(s: GameState) {
    && |s.deck| <= 30 && |s.deck| % 6 == 0
    && (s.current == P1 ==> |s.hand1| == |s.hand2| <= 3)
    && (s.current == P2 ==> |s.hand2| == |s.hand1| + 1 <= 3)
    && (|s.hand1| == 0 && |s.hand2| == 0 ==> s.board == [])
  }

  /** What holds at the top of every loop iteration: no card twice, every
      card of the 40 either present or dropped by a collect, and the shape
      above. */
  predicate GameInv(s: GameState) {
    Distinct(AllCards(s)) && Shape(s) && |AllCards(s)| + Dropped(s) == 40
  }

  /** The full deck holds 40 distinct cards. */
  lemma FreshDeckDistinct()
    ensures Distinct(multiset(FreshDeck()))
    ensures |multiset(FreshDeck())| == 40
  {
    FreshDeckIsFull();
    NoDupCounts(FreshDeck());
  }

  /** Three deals in a row lose no card. */
  lemma DealsKeepCards(deck: seq<Card>, a: Deal, b: Deal, c: Deal)
    requires multiset(a.hand) + multiset(a.rest) == multiset(deck)
    requires multiset(b.hand) + multiset(b.rest) == multiset(a.rest)
    requires multiset(c.hand) + multiset(c.rest) == multiset(b.rest)
    ensures multiset(c.rest) + multiset(b.hand) + multiset(c.hand) + multiset(a.hand) == multiset(deck)
  {
  }

  /** The opening always succeeds: 4 board cards, 3 per hand, 30 left in
      the deck, all 40 cards distinct. */
  lemma NewGameStarts(boardDraws: seq<nat>, draws1: seq<nat>, draws2: seq<nat>)
    requires |boardDraws| == 4 && |draws1| == 3 && |draws2| == 3
    ensures NewGame(boardDraws, draws1, draws2).Ok?
    ensures GameInv(NewGame(boardDraws, draws1, draws2).value)
    ensures |NewGame(boardDraws, draws1, draws2).value.board| == 4
    ensures |NewGame(boardDraws, draws1, draws2).value.hand1| == 3
    ensures |NewGame(boardDraws, draws1, draws2).value.hand2| == 3
    ensures |NewGame(boardDraws, draws1, draws2).value.deck| == 30
  {
    var b := DealHand(FreshDeck(), 4, boardDraws).value;
    var h1 := DealHand(b.rest, 3, draws1).value;
    var h2 := DealHand(h1.rest, 3, draws2).value;
    var s := NewGame(boardDraws, draws1, draws2).value;
    assert s == GameState(h2.rest, h1.hand, h2.hand, b.hand, Pile([], 0), Pile([], 0), P1);
    DealsKeepCards(FreshDeck(), b, h1, h2);
    assert AllCards(s) == multiset(FreshDeck());
    FreshDeckDistinct();
    assert |s.hand1| == 3 && |s.hand2| == 3 && |s.board| == 4 && |s.deck| == 30;
    DroppedAtStart(s);
  }

  lemma DroppedAtStart(s: GameState)
    requires |s.deck| == 30 && |s.hand1| == 3
    ensures Dropped(s) == 0
  {
  }

  /** In a state satisfying the invariant, no card lies twice on the board. */
  lemma BoardDistinct(s: GameState)
    requires GameInv(s)
    ensures NoDup(s.board)
  {
    DistinctSub(multiset(s.board), AllCards(s));
    NoDupCounts(s.board);
  }

  /** A redeal keeps the invariant and leaves the player to move with cards:
      when both hands are empty it moves six cards from the deck to the
      hands, otherwise it changes nothing. The board, the piles and the
      player to move stay as they were. */
  lemma RedealKeepsInvariant(s: GameState, draws1: seq<nat>, draws2: seq<nat>)
    requires |draws1| == 3 && |draws2| == 3
    requires GameInv(s)
    requires Running(s)
    ensures Redeal(s, draws1, draws2).Ok?
    ensures GameInv(Redeal(s, draws1, draws2).value)
    ensures |MoverHand(Redeal(s, draws1, draws2).value)| > 0
    ensures |s.hand1| == 0 && |s.hand2| == 0 ==>
      && |Redeal(s, draws1, draws2).value.deck| == |s.deck| - 6
      && |Redeal(s, draws1, draws2).value.hand1| == 3
      && |Redeal(s, draws1, draws2).value.hand2| == 3
    ensures |s.hand1| == 0 && |s.hand2| == 0 ==>
      multiset(Redeal(s, draws1, draws2).value.deck) + multiset(Redeal(s, draws1, draws2).value.hand1)
      + multiset(Redeal(s, draws1, draws2).value.hand2) == multiset(s.deck)
    ensures Redeal(s, draws1, draws2).value.board == s.board
    ensures Redeal(s, draws1, draws2).value.pile1 == s.pile1
    ensures Redeal(s, draws1, draws2).value.pile2 == s.pile2
    ensures Redeal(s, draws1, draws2).value.current == s.current
    ensures !(|s.hand1| == 0 && |s.hand2| == 0) ==> Redeal(s, draws1, draws2).value == s
  {
    if |s.hand1| == 0 && |s.hand2| == 0 {
      DeckHoldsADeal(|s.deck|);
      var h1 := DealHand(s.deck, 3, draws1).value;
      var h2 := DealHand(h1.rest, 3, draws2).value;
      var s' := Redeal(s, draws1, draws2).value;
      assert s' == s.(deck := h2.rest, hand1 := h1.hand, hand2 := h2.hand);
      SecondDealKeepsCards(s.deck, h1, h2);
      SameHandsAndDeck(s, s');
      RedealSizes(s, s');
    }
  }

  /** Two deals in a row lose no card. */
  lemma SecondDealKeepsCards(deck: seq<Card>, a: Deal, b: Deal)
    requires multiset(a.hand) + multiset(a.rest) == multiset(deck)
    requires multiset(b.hand) + multiset(b.rest) == multiset(a.rest)
    ensures multiset(b.rest) + multiset(a.hand) + multiset(b.hand) == multiset(deck)
  {
  }

  /** Moving cards between the deck and the hands keeps the state's cards. */
  lemma SameHandsAndDeck(s: GameState, s': GameState)
    requires multiset(s'.deck) + multiset(s'.hand1) + multiset(s'.hand2)
          == multiset(s.deck) + multiset(s.hand1) + multiset(s.hand2)
    requires s'.board == s.board && s'.pile1 == s.pile1 && s'.pile2 == s.pile2
    ensures AllCards(s') == AllCards(s)
  {
  }

  lemma DeckHoldsADeal(n: int)
    requires n > 0 && n % 6 == 0
    ensures n >= 6
  {
  }

  /** The sizes after a redeal: six cards fewer in the deck, one deal more
      completed, and nothing yet dropped from the new deal. */
  lemma RedealSizes(s: GameState, s': GameState)
    requires Shape(s) && |s.hand1| == 0 && |s.hand2| == 0 && |s.deck| > 0
    requires |s'.deck| == |s.deck| - 6 && |s'.hand1| == 3 && |s'.hand2| == 3
    requires s'.current == s.current
    ensures Shape(s')
    ensures Dropped(s') == Dropped(s)
  {
  }

  /** The cards not on the mover's table: the deck, the opponent's hand and
      the opponent's pile. */
  function Others(s: GameState): multiset<Card> {
    multiset(s.deck) + multiset(OpponentHand(s))
    + multiset(OpponentPile(s).cards)
  }

  /** The cards of a state split into the mover's table and the rest, before
      and after the move. */
  lemma SplitAtMover(s: GameState, t: Table)
    ensures AllCards(s) == Contents(MoverTable(s)) + Others(s)
    ensures AllCards(Place(s, t)) == Contents(t) + Others(s)
  {
  }

  /** The chosen action always succeeds for a mover holding cards; it keeps
      the table's cards, except that a collect (offered only when the
      opponent's hand is empty) loses the card played and clears the board. */
  lemma ChosenMoveSucceeds(s: GameState, actionDraw: nat, cardDraw: nat)
    requires |MoverHand(s)| > 0
    requires NoDup(s.board)
    ensures PlayMove(MoverTable(s), ChosenAction(s, actionDraw), cardDraw).Ok?
    ensures |PlayMove(MoverTable(s), ChosenAction(s, actionDraw), cardDraw).value.hand| == |MoverHand(s)| - 1
    ensures |OpponentHand(s)| > 0 ==>
      Contents(PlayMove(MoverTable(s), ChosenAction(s, actionDraw), cardDraw).value) == Contents(MoverTable(s))
    ensures |OpponentHand(s)| == 0 ==>
      && PlayMove(MoverTable(s), ChosenAction(s, actionDraw), cardDraw).value.board == []
      && Contents(PlayMove(MoverTable(s), ChosenAction(s, actionDraw), cardDraw).value) <= Contents(MoverTable(s))
      && |Contents(PlayMove(MoverTable(s), ChosenAction(s, actionDraw), cardDraw).value)| + 1
         == |Contents(MoverTable(s))|
  {
    var table := MoverTable(s);
    var action := ChosenAction(s, actionDraw);
    assert action in AvailableActions(MoverHand(s), s.board, OpponentHand(s));
    if action.Capture? {
      OfferedCaptureFits(MoverHand(s), s.board, OpponentHand(s), action);
      CaptureKeepsCards(table, action.card, action.combo, cardDraw);
    } else if action == Discard {
      DiscardMove(table, cardDraw);
    } else {
      CollectMove(table, cardDraw);
    }
  }

  /** The sizes after a turn: one card fewer in the mover's hand, and one
      more card dropped exactly when the move was the collect that closes a
      deal. */
  lemma TurnSizes(s: GameState, s': GameState)
    requires Shape(s) && |MoverHand(s)| > 0
    requires s'.deck == s.deck && s'.current != s.current
    requires s.current == P1 ==> |s'.hand1| == |s.hand1| - 1 && s'.hand2 == s.hand2
    requires s.current == P2 ==> |s'.hand2| == |s.hand2| - 1 && s'.hand1 == s.hand1
    requires |OpponentHand(s)| == 0 ==> s'.board == []
    ensures Shape(s')
    ensures Dropped(s') == Dropped(s) + (if |OpponentHand(s)| == 0 then 1 else 0)
  {
  }

  /** A turn by a player holding cards keeps the invariant: it plays one
      card, leaves the deck alone, and the card it drops (a collect) is
      counted. The turn passes, and the opponent's hand and pile are as they
      were. */
  lemma TurnKeepsInvariant(s: GameState, actionDraw: nat, cardDraw: nat)
    requires GameInv(s)
    requires |MoverHand(s)| > 0
    ensures Turn(s, actionDraw, cardDraw).Ok?
    ensures GameInv(Turn(s, actionDraw, cardDraw).value)
    ensures Turn(s, actionDraw, cardDraw).value.deck == s.deck
    ensures |Turn(s, actionDraw, cardDraw).value.hand1| + |Turn(s, actionDraw, cardDraw).value.hand2|
         == |s.hand1| + |s.hand2| - 1
    ensures Turn(s, actionDraw, cardDraw).value.current != s.current
    ensures OpponentHand(s) == MoverHand(Turn(s, actionDraw, cardDraw).value)
    ensures OpponentPile(s) == MoverTable(Turn(s, actionDraw, cardDraw).value).pile
  {
    BoardDistinct(s);
    ChosenMoveSucceeds(s, actionDraw, cardDraw);
    var t := PlayMove(MoverTable(s), ChosenAction(s, actionDraw), cardDraw).value;
    var s' := Place(s, t);
    assert Turn(s, actionDraw, cardDraw).value == s';
    SplitAtMover(s, t);
    TurnSizes(s, s');
    DistinctSub(AllCards(s'), AllCards(s));
  }

  /** The play that ends the game is always player 2's forced collect:
      player 1 has no card left then, so no capture, and no sweep, can be
      the last play. */
  lemma LastPlayIsCollect(s: GameState, actionDraw: nat, cardDraw: nat)
    requires GameInv(s)
    requires |MoverHand(s)| > 0
    requires |s.deck| == 0
    ensures Turn(s, actionDraw, cardDraw).Ok?
    ensures !Running(Turn(s, actionDraw, cardDraw).value) ==>
      s.current == P2 && |s.hand1| == 0 && |s.hand2| == 1 && ChosenAction(s, actionDraw) == CollectPile
  {
    TurnKeepsInvariant(s, actionDraw, cardDraw);
    if !Running(Turn(s, actionDraw, cardDraw).value) {
      assert |s.hand1| + |s.hand2| == 1;
      assert OpponentHand(s) == [];
    }
  }

  /** When the loop stops, all cards are in the two piles: 34 of them,
      each card at most once, since the six collects dropped one card each. */
  lemma GameOver(s: GameState)
    requires GameInv(s)
    requires !Running(s)
    ensures s.board == []
    ensures |s.pile1.cards| + |s.pile2.cards| == 34
    ensures forall c | c in s.pile1.cards :: c !in s.pile2.cards
    ensures NoDup(s.pile1.cards) && NoDup(s.pile2.cards)
  {
    EndDropped(s);
    assert AllCards(s) == multiset(s.pile1.cards) + multiset(s.pile2.cards);
    forall c | c in s.pile1.cards ensures c !in s.pile2.cards {
      assert AllCards(s)[c] == multiset(s.pile1.cards)[c] + multiset(s.pile2.cards)[c];
    }
    DistinctSub(multiset(s.pile1.cards), AllCards(s));
    DistinctSub(multiset(s.pile2.cards), AllCards(s));
    NoDupCounts(s.pile1.cards);
    NoDupCounts(s.pile2.cards);
  }

  lemma EndDropped(s: GameState)
    requires |s.deck| == 0 && |s.hand1| == 0 && |s.hand2| == 0
    ensures Dropped(s) == 6
  {
  }

  /** `n` consecutive values of the random stream, from position `from`. */
  function Draws(rng: nat -> nat, from: nat, n: nat): (r: seq<nat>)
    ensures |r| == n
  {
    seq(n, j requires 0 <= j < n => rng(from + j))
  }

  /** `game()`: the opening deal, then rounds until the deck and both hands
      are empty, then the scores. Every random choice of the game is read
      from `rng`; whatever it yields, no deal and no move fails, every card
      ends in a pile or was dropped by one of the six collects, and at most
      the four category points are shared on top of the sweeps. */
  method PlayGame(rng: nat -> nat) returns (final: GameState, scores: Scores)
    ensures !Running(final) && final.board == []
    ensures |final.pile1.cards| + |final.pile2.cards| == 34
    ensures forall c | c in final.pile1.cards :: c !in final.pile2.cards
    ensures NoDup(final.pile1.cards) && NoDup(final.pile2.cards)
    ensures scores.player1 == |Won(final.pile1.cards, final.pile2.cards)| + final.pile1.scopas
    ensures scores.player2 == |Won(final.pile2.cards, final.pile1.cards)| + final.pile2.scopas
    ensures scores.player1 + scores.player2 <= 4 + final.pile1.scopas + final.pile2.scopas
  {
    NewGameStarts(Draws(rng, 0, 4), Draws(rng, 4, 3), Draws(rng, 7, 3));
    var s := NewGame(Draws(rng, 0, 4), Draws(rng, 4, 3), Draws(rng, 7, 3)).value;
    var i: nat := 10;
    while Running(s)
      invariant GameInv(s)
      decreases |s.deck| + |s.hand1| + |s.hand2|
    {
      var draws1, draws2 := Draws(rng, i, 3), Draws(rng, i + 3, 3);
      RedealKeepsInvariant(s, draws1, draws2);
      var dealt := Redeal(s, draws1, draws2).value;
      TurnKeepsInvariant(dealt, rng(i + 6), rng(i + 7));
      s := Turn(dealt, rng(i + 6), rng(i + 7)).value;
      i := i + 8;
    }
    GameOver(s);
    final := s;
    scores := FinalScores(final.pile1, final.pile2);
    ScoresCountCategories(final.pile1, final.pile2);
    CategoriesExclusive(final.pile1, final.pile2);
  }
}
