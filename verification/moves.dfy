/** The three move kinds of the turn step in `game()`: discard, capture
    (with scopa detection) and collect_pile, applied to the mover's hand,
    the board and the mover's pile. */
module Moves {
  import opened Wrappers
  import opened Lists
  import opened Cards
  import opened Actions

  /** `PlayerPile`: the captured cards and the scopa counter. */
  datatype Pile = Pile(cards: seq<Card>, scopas: nat)

  /** What one move touches: the mover's hand, the board, the mover's pile. */
  datatype Table = Table(hand: seq<Card>, board: seq<Card>, pile: Pile)

  /** `choice` on an empty hand raises `IndexError`; `Hand.play_card` of a
      card the hand lacks raises `ValueError`. */
  datatype MoveError = EmptyHand | CardNotInHand

  /** All cards of a table, wherever they lie. */
  function Contents(t: Table): multiset<Card> {
    multiset(t.hand) + multiset(t.board) + multiset(t.pile.cards)
  }

  /** The card a move plays: the capturing card, or for a discard or a
      collect the hand card `choice` picks with draw `k`. */
  function PlayedCard(t: Table, action: Action, k: nat): Card
    requires action.Capture? || |t.hand| > 0
  {
    if action.Capture? then action.card else t.hand[k % |t.hand|]
  }

  /** One branch of the turn step: a discard appends a random hand card to
      the board; a collect plays a random hand card, moves the whole board to
      the pile and leaves the board empty (the played card is put nowhere);
      a capture plays its card, scores a scopa when it takes as many cards as
      the board holds, keeps the board cards it did not take, and piles the
      played card followed by the taken ones. */
  function PlayMove(t: Table, action: Action, k: nat): (r: Result<Table, MoveError>)
    ensures r.Ok? <==> if action.Capture? then action.card in t.hand else |t.hand| > 0
    ensures r.Ok? ==> PlayedCard(t, action, k) in t.hand
    ensures r.Ok? ==> multiset(r.value.hand) == multiset(t.hand) - multiset{PlayedCard(t, action, k)}
    ensures r.Err? ==> r.error == (if action.Capture? then CardNotInHand else EmptyHand)
  {
    match action
    case Discard =>
      if |t.hand| == 0 then Err(EmptyHand)
      else
        var card := t.hand[k % |t.hand|];
        Ok(Table(RemoveFirst(t.hand, card).value, t.board + [card], t.pile))
    case CollectPile =>
      if |t.hand| == 0 then Err(EmptyHand)
      else
        var card := t.hand[k % |t.hand|];
        Ok(Table(RemoveFirst(t.hand, card).value, [], Pile(t.pile.cards + t.board, t.pile.scopas)))
    case Capture(card, combo) =>
      match RemoveFirst(t.hand, card)
      case None => Err(CardNotInHand)
      case Some(hand) =>
        var scopa := |t.board| == |combo|;
        Ok(Table(hand, Without(t.board, combo),
                 Pile(t.pile.cards + [card] + combo, t.pile.scopas + if scopa then 1 else 0)))
  }

  /** A discard moves one hand card to the end of the board; the pile and
      the scopa count stay, and no card is lost. */
  lemma DiscardMove(t: Table, k: nat)
    requires |t.hand| > 0
    ensures PlayMove(t, Discard, k).Ok?
    ensures PlayMove(t, Discard, k).value.board == t.board + [PlayedCard(t, Discard, k)]
    ensures PlayMove(t, Discard, k).value.pile == t.pile
    ensures |PlayMove(t, Discard, k).value.hand| == |t.hand| - 1
    ensures Contents(PlayMove(t, Discard, k).value) == Contents(t)
  {
    var r := PlayMove(t, Discard, k).value;
    var card := PlayedCard(t, Discard, k);
    assert multiset(r.board) == multiset(t.board) + multiset{card};
    MultisetSubAdd(multiset(t.hand), multiset{card});
  }

  /** A collect removes one hand card, appends the whole board to the pile
      and empties the board; the scopa count stays, and the played card is
      the one card that leaves the table. */
  lemma CollectMove(t: Table, k: nat)
    requires |t.hand| > 0
    ensures PlayMove(t, CollectPile, k).Ok?
    ensures PlayMove(t, CollectPile, k).value.board == []
    ensures PlayMove(t, CollectPile, k).value.pile == Pile(t.pile.cards + t.board, t.pile.scopas)
    ensures |PlayMove(t, CollectPile, k).value.hand| == |t.hand| - 1
    ensures Contents(PlayMove(t, CollectPile, k).value) + multiset{PlayedCard(t, CollectPile, k)} == Contents(t)
  {
    var r := PlayMove(t, CollectPile, k).value;
    var card := PlayedCard(t, CollectPile, k);
    assert multiset(r.pile.cards) == multiset(t.pile.cards) + multiset(t.board);
    MultisetSubAdd(multiset(t.hand), multiset{card});
  }

  /** A capture of distinct board cards by a hand card: the card leaves the
      hand, the taken cards leave the board, both go to the pile, and a scopa
      is scored exactly when the board ends up empty, that is, exactly when
      the capture takes the whole board. */
  lemma CaptureMove(t: Table, card: Card, combo: seq<Card>, k: nat)
    requires card in t.hand
    requires NoDup(t.board)
    requires multiset(combo) <= multiset(t.board)
    ensures PlayMove(t, Capture(card, combo), k).Ok?
    ensures multiset(PlayMove(t, Capture(card, combo), k).value.board) == multiset(t.board) - multiset(combo)
    ensures PlayMove(t, Capture(card, combo), k).value.pile.cards == t.pile.cards + [card] + combo
    ensures PlayMove(t, Capture(card, combo), k).value.pile.scopas ==
      t.pile.scopas + (if PlayMove(t, Capture(card, combo), k).value.board == [] then 1 else 0)
    ensures PlayMove(t, Capture(card, combo), k).value.board == [] <==> multiset(combo) == multiset(t.board)
  {
    CaptureShape(t, card, combo, k);
    var r := PlayMove(t, Capture(card, combo), k).value;
    var board := Without(t.board, combo);
    WithoutRemovesExactly(t.board, combo);
    MultisetSubAdd(multiset(t.board), multiset(combo));
    assert r.board == [] <==> |t.board| == |combo|;
    if r.board == [] {
      assert multiset(board) == multiset{};
      assert multiset(t.board) == multiset(combo);
    }
  }

  /** A capture leaves every card on the table: the played card and the
      taken cards only change containers. */
  lemma CaptureKeepsCards(t: Table, card: Card, combo: seq<Card>, k: nat)
    requires card in t.hand
    requires NoDup(t.board)
    requires multiset(combo) <= multiset(t.board)
    ensures PlayMove(t, Capture(card, combo), k).Ok?
    ensures |PlayMove(t, Capture(card, combo), k).value.hand| == |t.hand| - 1
    ensures Contents(PlayMove(t, Capture(card, combo), k).value) == Contents(t)
  {
    CaptureShape(t, card, combo, k);
    var r := PlayMove(t, Capture(card, combo), k).value;
    var h := multiset(t.hand);
    var b := multiset(t.board);
    var c := multiset(combo);
    var hand := RemoveFirst(t.hand, card).value;
    var board := Without(t.board, combo);
    var pile := t.pile.cards + [card] + combo;
    WithoutRemovesExactly(t.board, combo);
    assert multiset(board) == b - c;
    assert multiset(hand) == h - multiset{card};
    assert multiset(pile) == multiset(t.pile.cards) + multiset{card} + c;
    Regroup(h, b, multiset(t.pile.cards), multiset{card}, c);
  }

  /** The table a capture by a hand card produces, spelled out field by
      field for `CaptureMove` and `CaptureKeepsCards` to build on. */
  lemma CaptureShape(t: Table, card: Card, combo: seq<Card>, k: nat)
    requires card in t.hand
    ensures PlayMove(t, Capture(card, combo), k).Ok?
    ensures PlayMove(t, Capture(card, combo), k).value.hand == RemoveFirst(t.hand, card).value
    ensures PlayMove(t, Capture(card, combo), k).value.board == Without(t.board, combo)
    ensures PlayMove(t, Capture(card, combo), k).value.pile
      == Pile(t.pile.cards + [card] + combo, t.pile.scopas + if |t.board| == |combo| then 1 else 0)
  {
    var removed := RemoveFirst(t.hand, card);
    assert removed.Some?;
  }

  /** Moving `x` out of `h` and `c` out of `b` into `p` keeps the total. */
  lemma Regroup(h: multiset<Card>, b: multiset<Card>, p: multiset<Card>, x: multiset<Card>, c: multiset<Card>)
    requires x <= h && c <= b
    ensures (h - x) + (b - c) + (p + x + c) == h + b + p
  {
    forall y ensures ((h - x) + (b - c) + (p + x + c))[y] == (h + b + p)[y] {
      assert x[y] <= h[y] && c[y] <= b[y];
    }
  }
}
