/** The deck: construction of the 40 cards, `card_removal`, and `deal_hand`
    with its random `sample` given as explicit draws. */
module Deck {
  import opened Wrappers
  import opened Lists
  import opened Cards

  /** `Deck()`: `product(ranks, suits)`, rank-major in table order. */
  function FreshDeck(): (d: seq<Card>)
    ensures |d| == 40
  {
    seq(40, i requires 0 <= i < 40 => Card(Ranks[i / 4], Suits[i % 4]))
  }

  /** Where a card sits in a fresh deck. */
  lemma FreshDeckPosition(c: Card)
    ensures 4 * RankIndex(c.rank) + SuitIndex(c.suit) < 40
    ensures FreshDeck()[4 * RankIndex(c.rank) + SuitIndex(c.suit)] == c
  {
    var i := 4 * RankIndex(c.rank) + SuitIndex(c.suit);
    assert i / 4 == RankIndex(c.rank) && i % 4 == SuitIndex(c.suit);
  }

  /** A fresh deck holds every card once, and the 40 keys are distinct. */
  lemma FreshDeckIsFull()
    ensures forall c: Card :: c in FreshDeck()
    ensures NoDup(FreshDeck())
    ensures forall i, j | 0 <= i < j < 40 :: Key(FreshDeck()[i]) != Key(FreshDeck()[j])
  {
    var d := FreshDeck();
    forall c: Card ensures c in d {
      FreshDeckPosition(c);
    }
    FreshDeckNoDup();
    forall i, j | 0 <= i < j < 40
      ensures Key(d[i]) != Key(d[j])
    {
      KeyInjective(d[i], d[j]);
    }
  }

  lemma FreshDeckNoDup()
    ensures NoDup(FreshDeck())
  {
    var d := FreshDeck();
    forall i, j | 0 <= i < |d| && 0 <= j < |d| && i != j
      ensures d[i] != d[j]
    {
      FreshDeckAt(i);
      FreshDeckAt(j);
      assert i == 4 * (i / 4) + i % 4 && j == 4 * (j / 4) + j % 4;
    }
  }

  /** The card at position `i` of a fresh deck has rank index i / 4 and
      suit index i % 4. */
  lemma FreshDeckAt(i: nat)
    requires i < 40
    ensures RankIndex(FreshDeck()[i].rank) == i / 4
    ensures SuitIndex(FreshDeck()[i].suit) == i % 4
  {
    RankIndexInverse(i / 4);
    SuitIndexInverse(i % 4);
  }

  lemma RankIndexInverse(k: nat)
    requires k < 10
    ensures RankIndex(Ranks[k]) == k
  {
  }

  lemma SuitIndexInverse(k: nat)
    requires k < 4
    ensures SuitIndex(Suits[k]) == k
  {
  }

  /** `Deck.card_removal`: one `list.remove` per card; `None` is the
      `ValueError` of removing a card the deck does not hold. */
  function CardRemoval(cards: seq<Card>, removed: seq<Card>): (r: Option<seq<Card>>)
    ensures r.Some? <==> multiset(removed) <= multiset(cards)
    ensures r.Some? ==> multiset(r.value) == multiset(cards) - multiset(removed)
    decreases |removed|
  {
    if |removed| == 0 then Some(cards)
    else
      assert removed == [removed[0]] + removed[1..];
      SubMultisetCons(removed[0], removed[1..], multiset(cards));
      match RemoveFirst(cards, removed[0])
      case None => None
      case Some(rest) => CardRemoval(rest, removed[1..])
  }

  /** `random.sample(pool, |draws|)`: the i-th pick takes position
      `draws[i] % n` of the n cards not yet picked, so every ordered
      selection of distinct positions is some choice of draws. */
  function Sample(pool: seq<Card>, draws: seq<nat>): (r: seq<Card>)
    requires |draws| <= |pool|
    ensures |r| == |draws|
    ensures multiset(r) <= multiset(pool)
    decreases |draws|
  {
    if |draws| == 0 then []
    else
      var i := draws[0] % |pool|;
      var rest := Sample(RemoveAt(pool, i), draws[1..]);
      assert multiset([pool[i]] + rest) == multiset{pool[i]} + multiset(rest);
      [pool[i]] + rest
  }

  /** The assertion of `deal_hand` and the `ValueError` of `sample`. */
  datatype DealError = InvalidCardCount | SampleLargerThanDeck

  /** A dealt hand and the deck left behind. */
  datatype Deal = Deal(hand: seq<Card>, rest: seq<Card>)

  /** `Deck.deal_hand(cards_no)`: samples `cards_no` cards and removes them
      from the deck. Fails for any count but 3 and 4, and when the deck is
      too small to sample from. */
  function DealHand(deck: seq<Card>, cardsNo: int, draws: seq<nat>): (r: Result<Deal, DealError>)
    requires cardsNo == 3 || cardsNo == 4 ==> |draws| == cardsNo
    ensures r.Ok? <==> (cardsNo == 3 || cardsNo == 4) && cardsNo <= |deck|
    ensures r == Err(InvalidCardCount) <==> !(cardsNo == 3 || cardsNo == 4)
    ensures r.Ok? ==> |r.value.hand| == cardsNo && |r.value.rest| == |deck| - cardsNo
    ensures r.Ok? ==> multiset(r.value.hand) + multiset(r.value.rest) == multiset(deck)
  {
    if !(cardsNo == 3 || cardsNo == 4) then Err(InvalidCardCount)
    else if cardsNo > |deck| then Err(SampleLargerThanDeck)
    else
      var hand := Sample(deck, draws);
      var rest := CardRemoval(deck, hand).value;
      RemovalSplits(deck, hand, rest);
      Ok(Deal(hand, rest))
  }

  /** Removing a sub-multiset splits the deck in two. */
  lemma RemovalSplits(deck: seq<Card>, hand: seq<Card>, rest: seq<Card>)
    requires multiset(hand) <= multiset(deck)
    requires multiset(rest) == multiset(deck) - multiset(hand)
    ensures multiset(hand) + multiset(rest) == multiset(deck)
    ensures |rest| == |deck| - |hand|
  {
    MultisetSubAdd(multiset(deck), multiset(hand));
  }

  /** Dealing from a duplicate-free deck gives distinct cards that are no
      longer in the deck, and leaves a duplicate-free deck. */
  lemma DealHandDistinct(deck: seq<Card>, cardsNo: int, draws: seq<nat>)
    requires cardsNo == 3 || cardsNo == 4
    requires |draws| == cardsNo <= |deck|
    requires NoDup(deck)
    ensures DealHand(deck, cardsNo, draws).Ok?
    ensures NoDup(DealHand(deck, cardsNo, draws).value.hand)
    ensures NoDup(DealHand(deck, cardsNo, draws).value.rest)
    ensures forall c | c in DealHand(deck, cardsNo, draws).value.hand :: c !in DealHand(deck, cardsNo, draws).value.rest
  {
    var d := DealHand(deck, cardsNo, draws).value;
    SplitDistinct(deck, d.hand, d.rest);
  }

  /** Splitting a duplicate-free deck in two gives duplicate-free, disjoint
      parts. */
  lemma SplitDistinct(deck: seq<Card>, hand: seq<Card>, rest: seq<Card>)
    requires NoDup(deck)
    requires multiset(hand) + multiset(rest) == multiset(deck)
    ensures NoDup(hand) && NoDup(rest)
    ensures forall c | c in hand :: c !in rest
  {
    NoDupSub(hand, deck);
    NoDupSub(rest, deck);
    NoDupCounts(deck);
    forall c | c in hand ensures c !in rest {
      assert multiset(deck)[c] == multiset(hand)[c] + multiset(rest)[c];
    }
  }
}
