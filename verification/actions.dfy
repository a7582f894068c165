/** `PlayerAction.available_actions`: the legal-move generator. Captures are
    enumerated the way `itertools.permutations` enumerates them, so one set
    of board cards appears once per ordering. */
module Actions {
  import opened Lists
  import opened Cards

  /** An entry of the list `available_actions` returns: the strings
      'discard' and 'collect_pile', or a `(card, combo)` capture tuple. */
  datatype Action = Discard | CollectPile | Capture(card: Card, combo: seq<Card>)

  /** `sum(c.card_value() for c in combo)`. */
  function Sum(cards: seq<Card>): nat {
    if |cards| == 0 then 0 else CardValue(cards[0]) + Sum(cards[1..])
  }

  /** `x` put in front of each sequence of `ts`. */
  function Prepend(x: Card, ts: seq<seq<Card>>): seq<seq<Card>> {
    seq(|ts|, k requires 0 <= k < |ts| => [x] + ts[k])
  }

  /** `itertools.permutations(pool, r)`: every ordered selection of `r`
      distinct positions of `pool`, in lexicographic order of the positions. */
  function Arrangements(pool: seq<Card>, r: nat): seq<seq<Card>>
    decreases r, |pool| + 1
  {
    if r == 0 then [[]] else ArrangementsFrom(pool, r, 0)
  }

  /** The arrangements whose first position is `i` or later. */
  function ArrangementsFrom(pool: seq<Card>, r: nat, i: nat): seq<seq<Card>>
    requires 1 <= r && i <= |pool|
    decreases r, |pool| - i
  {
    if i == |pool| then []
    else Prepend(pool[i], Arrangements(RemoveAt(pool, i), r - 1)) + ArrangementsFrom(pool, r, i + 1)
  }

  /** An arrangement has `r` cards drawn from distinct positions of the pool. */
  lemma {:induction false} ArrangementsSound(pool: seq<Card>, r: nat, t: seq<Card>)
    requires t in Arrangements(pool, r)
    ensures |t| == r && multiset(t) <= multiset(pool)
    decreases r, |pool| + 1
  {
    if r > 0 {
      ArrangementsFromSound(pool, r, 0, t);
    }
  }

  lemma {:induction false} ArrangementsFromSound(pool: seq<Card>, r: nat, i: nat, t: seq<Card>)
    requires 1 <= r && i <= |pool|
    requires t in ArrangementsFrom(pool, r, i)
    ensures |t| == r && multiset(t) <= multiset(pool)
    decreases r, |pool| - i
  {
    if i < |pool| {
      var rest := RemoveAt(pool, i);
      var tails := Arrangements(rest, r - 1);
      if t in Prepend(pool[i], tails) {
        var k :| 0 <= k < |tails| && t == [pool[i]] + tails[k];
        ArrangementsSound(rest, r - 1, tails[k]);
        assert multiset(t) == multiset{pool[i]} + multiset(tails[k]);
        MultisetSubAdd(multiset(pool), multiset{pool[i]});
      } else {
        ArrangementsFromSound(pool, r, i + 1, t);
      }
    }
  }

  /** A later slice of the enumeration is part of an earlier one. */
  lemma {:induction false} ArrangementsFromContains(pool: seq<Card>, r: nat, j: nat, i: nat, t: seq<Card>)
    requires 1 <= r && j <= i < |pool|
    requires t in Prepend(pool[i], Arrangements(RemoveAt(pool, i), r - 1))
    ensures t in ArrangementsFrom(pool, r, j)
    decreases i - j
  {
    if j < i {
      ArrangementsFromContains(pool, r, j + 1, i, t);
    }
  }

  /** Every ordering of distinct pool cards is enumerated. */
  lemma {:induction false} ArrangementsComplete(pool: seq<Card>, t: seq<Card>)
    requires NoDup(t)
    requires forall x | x in t :: x in pool
    ensures t in Arrangements(pool, |t|)
    decreases |t|
  {
    if |t| > 0 {
      assert t[0] in t;
      var i :| 0 <= i < |pool| && pool[i] == t[0];
      var rest := RemoveAt(pool, i);
      var tail := t[1..];
      forall x | x in tail ensures x in rest {
        TailMemberStays(pool, i, t, x);
      }
      NoDupTail(t);
      ArrangementsComplete(rest, tail);
      var tails := Arrangements(rest, |t| - 1);
      var k :| 0 <= k < |tails| && tails[k] == tail;
      assert Prepend(pool[i], tails)[k] == t;
      ArrangementsFromContains(pool, |t|, 0, i, t);
    }
  }

  /** A card of a duplicate-free sequence after its head survives removing
      the head's position from the pool. */
  lemma TailMemberStays(pool: seq<Card>, i: nat, t: seq<Card>, x: Card)
    requires i < |pool| && |t| > 0 && pool[i] == t[0]
    requires NoDup(t)
    requires forall y | y in t :: y in pool
    requires x in t[1..]
    ensures x in RemoveAt(pool, i)
  {
    var k :| 0 <= k < |t| - 1 && t[1..][k] == x;
    assert t[k + 1] == x;
    assert t[k + 1] != t[0];
    assert x in t;
    assert x in multiset(pool);
    assert multiset(RemoveAt(pool, i))[x] == multiset(pool)[x];
  }

  /** The tail of a duplicate-free sequence is duplicate-free. */
  lemma NoDupTail(t: seq<Card>)
    requires |t| > 0 && NoDup(t)
    ensures NoDup(t[1..])
  {
    var tail := t[1..];
    forall a, b | 0 <= a < |tail| && 0 <= b < |tail| && a != b
      ensures tail[a] != tail[b]
    {
      assert tail[a] == t[a + 1] && tail[b] == t[b + 1];
    }
  }

  /** On a duplicate-free pool: exactly the duplicate-free sequences of pool
      cards of length `r` are enumerated. */
  lemma ArrangementsExact(pool: seq<Card>, r: nat, t: seq<Card>)
    requires NoDup(pool)
    ensures t in Arrangements(pool, r) <==> |t| == r && NoDup(t) && forall x | x in t :: x in pool
  {
    if t in Arrangements(pool, r) {
      ArrangementsSound(pool, r, t);
      NoDupSub(t, pool);
      forall x | x in t ensures x in pool {
        assert multiset(t)[x] >= 1;
      }
    }
    if |t| == r && NoDup(t) && forall x | x in t :: x in pool {
      ArrangementsComplete(pool, t);
    }
  }

  /** The captures by `card` over `combos` whose values add up to the card's. */
  function Matching(card: Card, combos: seq<seq<Card>>): seq<Action> {
    if |combos| == 0 then []
    else
      (if Sum(combos[0]) == CardValue(card) then [Capture(card, combos[0])] else [])
      + Matching(card, combos[1..])
  }

  lemma {:induction false} MatchingMember(card: Card, combos: seq<seq<Card>>, a: Action)
    ensures a in Matching(card, combos) <==>
      a.Capture? && a.card == card && a.combo in combos && Sum(a.combo) == CardValue(card)
  {
    if |combos| > 0 {
      MatchingMember(card, combos[1..], a);
      assert combos == [combos[0]] + combos[1..];
    }
  }

  /** The captures by `card` of 1 to `r` board cards, shortest first. */
  function CapturesUpTo(card: Card, board: seq<Card>, r: nat): seq<Action> {
    if r == 0 then []
    else CapturesUpTo(card, board, r - 1) + Matching(card, Arrangements(board, r))
  }

  lemma {:induction false} CapturesUpToMember(card: Card, board: seq<Card>, r: nat, a: Action)
    ensures a in CapturesUpTo(card, board, r) <==>
      && a.Capture? && a.card == card
      && 1 <= |a.combo| <= r
      && a.combo in Arrangements(board, |a.combo|)
      && Sum(a.combo) == CardValue(card)
  {
    if r > 0 {
      CapturesUpToMember(card, board, r - 1, a);
      MatchingMember(card, Arrangements(board, r), a);
      if a.Capture? && a.combo in Arrangements(board, r) {
        ArrangementsSound(board, r, a.combo);
      }
    }
  }

  /** The captures of every hand card, in hand order. */
  function HandCaptures(hand: seq<Card>, board: seq<Card>): seq<Action> {
    if |hand| == 0 then []
    else CapturesUpTo(hand[0], board, |board|) + HandCaptures(hand[1..], board)
  }

  lemma {:induction false} HandCapturesMember(hand: seq<Card>, board: seq<Card>, a: Action)
    ensures a in HandCaptures(hand, board) <==>
      && a.Capture? && a.card in hand
      && 1 <= |a.combo| <= |board|
      && a.combo in Arrangements(board, |a.combo|)
      && Sum(a.combo) == CardValue(a.card)
  {
    if |hand| > 0 {
      var first := CapturesUpTo(hand[0], board, |board|);
      var later := HandCaptures(hand[1..], board);
      assert a in HandCaptures(hand, board) <==> a in first || a in later;
      HandCapturesMember(hand[1..], board, a);
      CapturesUpToMember(hand[0], board, |board|, a);
      assert hand == [hand[0]] + hand[1..];
      assert a.Capture? ==> (a.card in hand <==> a.card == hand[0] || a.card in hand[1..]);
    }
  }

  /** `available_actions`: the forced collect when the opponent holds no
      card, otherwise every capture, otherwise the single discard. */
  function AvailableActions(hand: seq<Card>, board: seq<Card>, opponent: seq<Card>): (r: seq<Action>)
    ensures |r| >= 1
    ensures r == [CollectPile] <==> |opponent| == 0
    ensures CollectPile in r <==> |opponent| == 0
    ensures |opponent| > 0 ==> r == [Discard] || forall a | a in r :: a.Capture?
  {
    if |opponent| == 0 then [CollectPile]
    else
      var captures := HandCaptures(hand, board);
      if |captures| == 0 then [Discard]
      else
        assert forall a | a in captures :: a.Capture? by {
          forall a | a in captures ensures a.Capture? {
            HandCapturesMember(hand, board, a);
          }
        }
        assert captures[0] in captures;
        captures
  }

  /** Every capture offered plays a hand card and takes cards from distinct
      board positions whose values add up to the card's. */
  lemma OfferedCaptureFits(hand: seq<Card>, board: seq<Card>, opponent: seq<Card>, a: Action)
    requires a in AvailableActions(hand, board, opponent)
    requires a.Capture?
    ensures a.card in hand
    ensures 1 <= |a.combo| <= |board|
    ensures multiset(a.combo) <= multiset(board)
    ensures Sum(a.combo) == CardValue(a.card)
  {
    assert a in HandCaptures(hand, board);
    HandCapturesMember(hand, board, a);
    ArrangementsSound(board, |a.combo|, a.combo);
  }

  /** A capture the rules allow: a hand card and 1 to |board| distinct board
      cards whose values add up to the card's value. */
  predicate LegalCapture(hand: seq<Card>, board: seq<Card>, card: Card, combo: seq<Card>) {
    && card in hand
    && 1 <= |combo| <= |board|
    && NoDup(combo)
    && (forall x | x in combo :: x in board)
    && Sum(combo) == CardValue(card)
  }

  /** With a card in the opponent's hand and a duplicate-free board, the
      captures offered are exactly the legal ones, and the discard is
      offered exactly when there is none. */
  lemma AvailableCapturesExact(hand: seq<Card>, board: seq<Card>, opponent: seq<Card>)
    requires |opponent| > 0
    requires NoDup(board)
    ensures forall card, combo ::
      Capture(card, combo) in AvailableActions(hand, board, opponent) <==> LegalCapture(hand, board, card, combo)
    ensures AvailableActions(hand, board, opponent) == [Discard] <==>
      forall card, combo :: !LegalCapture(hand, board, card, combo)
  {
    var captures := HandCaptures(hand, board);
    forall card, combo
      ensures Capture(card, combo) in captures <==> LegalCapture(hand, board, card, combo)
    {
      HandCapturesMember(hand, board, Capture(card, combo));
      ArrangementsExact(board, |combo|, combo);
    }
    if |captures| > 0 {
      var a := captures[0];
      HandCapturesMember(hand, board, a);
      assert Capture(a.card, a.combo) in captures;
    }
  }

  /** The enumeration does not identify orderings: every reordering of an
      offered capture is offered as well, as its own action. */
  lemma ReorderedCaptureOffered(hand: seq<Card>, board: seq<Card>, opponent: seq<Card>,
                                card: Card, combo: seq<Card>, reordered: seq<Card>)
    requires NoDup(board)
    requires Capture(card, combo) in AvailableActions(hand, board, opponent)
    requires multiset(reordered) == multiset(combo)
    ensures Capture(card, reordered) in AvailableActions(hand, board, opponent)
  {
    assert |opponent| > 0;
    AvailableCapturesExact(hand, board, opponent);
    assert LegalCapture(hand, board, card, combo);
    NoDupSub(reordered, combo);
    forall x | x in reordered ensures x in board {
      assert x in multiset(combo);
    }
    assert |reordered| == |multiset(reordered)| == |combo|;
    SumPermutation(reordered, combo);
  }

  /** A 7 facing a 4 and a 3 is offered the same capture twice, once per
      ordering of the two board cards. */
  lemma CaptureOrderingsRepeat()
    ensures Capture(Card(Seven, Hearts), [Card(Four, Diamonds), Card(Three, Spades)])
      in AvailableActions([Card(Seven, Hearts)], [Card(Four, Diamonds), Card(Three, Spades)], [Card(King, Clubs)])
    ensures Capture(Card(Seven, Hearts), [Card(Three, Spades), Card(Four, Diamonds)])
      in AvailableActions([Card(Seven, Hearts)], [Card(Four, Diamonds), Card(Three, Spades)], [Card(King, Clubs)])
  {
    var seven := Card(Seven, Hearts);
    var board := [Card(Four, Diamonds), Card(Three, Spades)];
    var swapped := [Card(Three, Spades), Card(Four, Diamonds)];
    assert NoDup(board);
    assert Sum(board) == 7;
    AvailableCapturesExact([seven], board, [Card(King, Clubs)]);
    assert LegalCapture([seven], board, seven, board);
    ReorderedCaptureOffered([seven], board, [Card(King, Clubs)], seven, board, swapped);
  }

  /** The value sum of a concatenation. */
  lemma {:induction false} SumConcat(x: seq<Card>, y: seq<Card>)
    ensures Sum(x + y) == Sum(x) + Sum(y)
    decreases |x|
  {
    if |x| == 0 {
      assert x + y == y;
    } else {
      assert (x + y)[1..] == x[1..] + y;
      SumConcat(x[1..], y);
    }
  }

  /** Taking the head of `a` out of `b` at a position where it occurs keeps
      the two sides equal as multisets. */
  lemma RemoveMatched(a: seq<Card>, b: seq<Card>, j: nat)
    requires multiset(a) == multiset(b)
    requires |a| > 0 && j < |b| && b[j] == a[0]
    ensures multiset(a[1..]) == multiset(b[..j] + b[j + 1..])
  {
    var x := a[0];
    var left, right := b[..j], b[j + 1..];
    assert b == left + [x] + right;
    assert a == [x] + a[1..];
    assert multiset(b) == multiset(left) + multiset{x} + multiset(right);
    assert multiset(a) == multiset{x} + multiset(a[1..]);
    assert multiset(left + right) == multiset(left) + multiset(right);
    forall y ensures multiset(a[1..])[y] == multiset(left + right)[y] {
      assert multiset(a)[y] == multiset(b)[y];
    }
  }

  /** The value sum does not depend on the order of the cards. */
  lemma {:induction false} SumPermutation(a: seq<Card>, b: seq<Card>)
    requires multiset(a) == multiset(b)
    ensures Sum(a) == Sum(b)
    decreases |a|
  {
    if |a| == 0 {
      assert |b| == |multiset(b)| == 0;
    } else {
      var x := a[0];
      assert x in multiset(b);
      var j :| 0 <= j < |b| && b[j] == x;
      var left, right := b[..j], b[j + 1..];
      assert b == left + [x] + right;
      RemoveMatched(a, b, j);
      SumPermutation(a[1..], left + right);
      SumConcat(left, right);
      SumConcat(left + [x], right);
      SumConcat(left, [x]);
    }
  }
}
