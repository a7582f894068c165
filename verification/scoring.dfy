/** End-of-round scoring in `game()`: `calculate_primiera`, the suit-coverage
    tie-break `primiera_score`, and the four categorical points plus scopas. */
module Scoring {
  import opened Cards
  import opened Moves

  /** The rank-to-primiera table `calculate_primiera` uses. */
  function PrimieraValue(r: Rank): (v: nat)
    ensures 10 <= v <= 21
  {
    match r
    case Seven => 21
    case Six => 18
    case Ace => 16
    case Five => 15
    case Four => 14
    case Three => 13
    case Two => 12
    case King => 10
    case Jack => 10
    case Queen => 10
  }

  function Max(a: nat, b: nat): nat {
    if a >= b then a else b
  }

  /** The entry `suits[suit]` after the loop of `calculate_primiera`: a
      running maximum over the pile's cards of that suit, starting from 0. */
  function SuitBest(cards: seq<Card>, suit: Suit): nat
    decreases |cards|
  {
    if |cards| == 0 then 0
    else
      var prefix := cards[..|cards| - 1];
      var last := cards[|cards| - 1];
      if last.suit == suit then Max(SuitBest(prefix, suit), PrimieraValue(last.rank))
      else SuitBest(prefix, suit)
  }

  /** The running maximum is the largest primiera value among the cards of
      the suit, and 0 exactly when the pile holds no card of the suit. */
  lemma {:induction false} SuitBestIsMax(cards: seq<Card>, suit: Suit)
    ensures forall c | c in cards && c.suit == suit :: PrimieraValue(c.rank) <= SuitBest(cards, suit)
    ensures SuitBest(cards, suit) == 0 ||
      exists c | c in cards && c.suit == suit :: PrimieraValue(c.rank) == SuitBest(cards, suit)
    ensures SuitBest(cards, suit) == 0 <==> forall c | c in cards :: c.suit != suit
    ensures SuitBest(cards, suit) <= 21
    decreases |cards|
  {
    if |cards| > 0 {
      var prefix := cards[..|cards| - 1];
      var last := cards[|cards| - 1];
      assert cards == prefix + [last];
      SuitBestIsMax(prefix, suit);
    }
  }

  /** The suits that have a card in the pile. */
  function SuitsIn(cards: seq<Card>): set<Suit> {
    set c | c in cards :: c.suit
  }

  /** The pair `calculate_primiera` returns. */
  datatype Primiera = Primiera(sum: nat, suitsCovered: nat)

  function Covered(best: nat): nat {
    if best > 0 then 1 else 0
  }

  /** `calculate_primiera`: the sum of the per-suit maxima and the number of
      suits whose maximum is positive. */
  function CalculatePrimiera(cards: seq<Card>): Primiera {
    var clubs := SuitBest(cards, Clubs);
    var diamonds := SuitBest(cards, Diamonds);
    var hearts := SuitBest(cards, Hearts);
    var spades := SuitBest(cards, Spades);
    Primiera(clubs + diamonds + hearts + spades,
             Covered(clubs) + Covered(diamonds) + Covered(hearts) + Covered(spades))
  }

  /** The suit count is the number of suits present in the pile; each
      present suit adds between 10 and 21 to the sum, so the sum is at most
      4 * 21, and it is zero only for an empty pile. */
  lemma PrimieraMeaning(cards: seq<Card>)
    ensures CalculatePrimiera(cards).suitsCovered == |SuitsIn(cards)|
    ensures CalculatePrimiera(cards).suitsCovered <= 4
    ensures 10 * CalculatePrimiera(cards).suitsCovered <= CalculatePrimiera(cards).sum
    ensures CalculatePrimiera(cards).sum <= 21 * CalculatePrimiera(cards).suitsCovered <= 84
    ensures CalculatePrimiera(cards).sum == 0 <==> |cards| == 0
  {
    SuitsInCount(cards);
    SuitBestIsMax(cards, Clubs);
    SuitBestIsMax(cards, Diamonds);
    SuitBestIsMax(cards, Hearts);
    SuitBestIsMax(cards, Spades);
    assert |cards| > 0 ==> cards[0] in cards;
  }

  /** The number of suits present is the number of positive per-suit maxima. */
  lemma SuitsInCount(cards: seq<Card>)
    ensures |SuitsIn(cards)| ==
      Covered(SuitBest(cards, Clubs)) + Covered(SuitBest(cards, Diamonds))
      + Covered(SuitBest(cards, Hearts)) + Covered(SuitBest(cards, Spades))
  {
    var s := SuitsIn(cards);
    forall suit ensures suit in s <==> SuitBest(cards, suit) > 0 {
      SuitBestIsMax(cards, suit);
      if SuitBest(cards, suit) > 0 {
        var c :| c in cards && c.suit == suit;
        assert c.suit in s;
      }
    }
    SuitSetSize(s);
  }

  /** A set of suits counts one for each of the four suits it holds. */
  lemma SuitSetSize(s: set<Suit>)
    ensures |s| == (if Clubs in s then 1 else 0) + (if Diamonds in s then 1 else 0)
                 + (if Hearts in s then 1 else 0) + (if Spades in s then 1 else 0)
  {
    forall e | e in s ensures e == Clubs || e == Diamonds || e == Hearts || e == Spades {
      match e {
        case Clubs => case Diamonds => case Hearts => case Spades =>
      }
    }
    CountFour(s, Clubs, Diamonds, Hearts, Spades);
  }

  /** A set drawn from four distinct values counts one per value it holds. */
  lemma CountFour<T>(s: set<T>, w: T, x: T, y: T, z: T)
    requires w != x && w != y && w != z && x != y && x != z && y != z
    requires forall e | e in s :: e == w || e == x || e == y || e == z
    ensures |s| == (if w in s then 1 else 0) + (if x in s then 1 else 0)
                 + (if y in s then 1 else 0) + (if z in s then 1 else 0)
  {
    var s1 := s - {w};
    var s2 := s1 - {x};
    var s3 := s2 - {y};
    var s4 := s3 - {z};
    DropOne(s, w);
    DropOne(s1, x);
    DropOne(s2, y);
    DropOne(s3, z);
    assert s4 == {};
  }

  lemma DropOne<T>(s: set<T>, w: T)
    ensures |s| == |s - {w}| + (if w in s then 1 else 0)
  {
    if w in s {
      assert s == (s - {w}) + {w};
    } else {
      assert s == s - {w};
    }
  }

  /** The nested `primiera_score`: full suit coverage first, then more
      suits, then the higher sum; (1, 0) and (0, 1) name the winner, (0, 0)
      a tie. */
  function PrimieraScore(p1Suits: int, p2Suits: int, p1Value: int, p2Value: int): (r: (nat, nat))
    ensures r == (1, 0) || r == (0, 1) || r == (0, 0)
  {
    if p1Suits == 4 && p2Suits < 4 then (1, 0)
    else if p2Suits == 4 && p1Suits < 4 then (0, 1)
    else if p1Suits > p2Suits then (1, 0)
    else if p2Suits > p1Suits then (0, 1)
    else if p1Value > p2Value then (1, 0)
    else if p2Value > p1Value then (0, 1)
    else (0, 0)
  }

  /** The tie-break is lexicographic order on (suits covered, sum): the
      full-coverage branches agree with "more suits wins". */
  lemma PrimieraScoreLexicographic(p1Suits: int, p2Suits: int, p1Value: int, p2Value: int)
    ensures PrimieraScore(p1Suits, p2Suits, p1Value, p2Value) == (1, 0) <==>
      p1Suits > p2Suits || (p1Suits == p2Suits && p1Value > p2Value)
    ensures PrimieraScore(p1Suits, p2Suits, p1Value, p2Value) == (0, 1) <==>
      p2Suits > p1Suits || (p1Suits == p2Suits && p2Value > p1Value)
    ensures PrimieraScore(p1Suits, p2Suits, p1Value, p2Value) == (0, 0) <==>
      p1Suits == p2Suits && p1Value == p2Value
  {
  }

  /** Swapping the players swaps the outcome. */
  lemma PrimieraScoreSwap(p1Suits: int, p2Suits: int, p1Value: int, p2Value: int)
    ensures PrimieraScore(p2Suits, p1Suits, p2Value, p1Value) ==
      (PrimieraScore(p1Suits, p2Suits, p1Value, p2Value).1, PrimieraScore(p1Suits, p2Suits, p1Value, p2Value).0)
  {
    PrimieraScoreLexicographic(p1Suits, p2Suits, p1Value, p2Value);
    PrimieraScoreLexicographic(p2Suits, p1Suits, p2Value, p1Value);
  }

  /** A pile holding all four suits beats a pile that lacks one, whatever
      the sums. */
  lemma FullCoverageWins(pile1: seq<Card>, pile2: seq<Card>)
    requires SuitsIn(pile1) == {Clubs, Diamonds, Hearts, Spades}
    requires |SuitsIn(pile2)| < 4
    ensures PrimieraScore(CalculatePrimiera(pile1).suitsCovered, CalculatePrimiera(pile2).suitsCovered,
                          CalculatePrimiera(pile1).sum, CalculatePrimiera(pile2).sum) == (1, 0)
  {
    PrimieraMeaning(pile1);
    PrimieraMeaning(pile2);
  }

  /** Four kings (sum 40) outrank three sevens (sum 63). */
  lemma KingsBeatSevens()
    ensures CalculatePrimiera(FourKings()) == Primiera(40, 4)
    ensures CalculatePrimiera(ThreeSevens()) == Primiera(63, 3)
    ensures PrimieraScore(4, 3, 40, 63) == (1, 0)
  {
    KingsPrimiera();
    SevensPrimiera();
  }

  lemma KingsPrimiera()
    ensures CalculatePrimiera(FourKings()) == Primiera(40, 4)
  {
    KingsBest();
    var k := FourKings();
    var p := CalculatePrimiera(k);
    assert p.sum == SuitBest(k, Clubs) + SuitBest(k, Diamonds) + SuitBest(k, Hearts) + SuitBest(k, Spades);
    assert p.suitsCovered == Covered(SuitBest(k, Clubs)) + Covered(SuitBest(k, Diamonds))
                           + Covered(SuitBest(k, Hearts)) + Covered(SuitBest(k, Spades));
  }

  lemma SevensPrimiera()
    ensures CalculatePrimiera(ThreeSevens()) == Primiera(63, 3)
  {
    SevensBest();
    var s := ThreeSevens();
    var p := CalculatePrimiera(s);
    assert p.sum == SuitBest(s, Clubs) + SuitBest(s, Diamonds) + SuitBest(s, Hearts) + SuitBest(s, Spades);
    assert p.suitsCovered == Covered(SuitBest(s, Clubs)) + Covered(SuitBest(s, Diamonds))
                           + Covered(SuitBest(s, Hearts)) + Covered(SuitBest(s, Spades));
  }

  function FourKings(): seq<Card> {
    [Card(King, Diamonds), Card(King, Hearts), Card(King, Spades), Card(King, Clubs)]
  }

  function ThreeSevens(): seq<Card> {
    [Card(Seven, Diamonds), Card(Seven, Hearts), Card(Seven, Spades)]
  }

  lemma KingsBest()
    ensures forall suit :: SuitBest(FourKings(), suit) == 10
  {
    var kings := FourKings();
    forall suit ensures SuitBest(kings, suit) == 10 {
      SuitBestIsMax(kings, suit);
      var c := Card(King, suit);
      assert c in kings by {
        match suit {
          case Diamonds => assert kings[0] == c;
          case Hearts => assert kings[1] == c;
          case Spades => assert kings[2] == c;
          case Clubs => assert kings[3] == c;
        }
      }
    }
  }

  lemma SevensBest()
    ensures forall suit | suit != Clubs :: SuitBest(ThreeSevens(), suit) == 21
    ensures SuitBest(ThreeSevens(), Clubs) == 0
  {
    var sevens := ThreeSevens();
    SuitBestIsMax(sevens, Clubs);
    forall suit | suit != Clubs ensures SuitBest(sevens, suit) == 21 {
      SuitBestIsMax(sevens, suit);
      var c := Card(Seven, suit);
      assert c in sevens by {
        match suit {
          case Diamonds => assert sevens[0] == c;
          case Hearts => assert sevens[1] == c;
          case Spades => assert sevens[2] == c;
        }
      }
    }
  }

  /** The sette bello category of the score sums in `game()`: the pile holds
      the seven of diamonds. */
  function SetteBello(cards: seq<Card>): bool {
    Card(Seven, Diamonds) in cards
  }

  /** The number of diamonds in a pile. */
  function DiamondCount(cards: seq<Card>): (n: nat)
    ensures n <= |cards|
    ensures n == 0 <==> forall c | c in cards :: c.suit != Diamonds
    ensures n == |cards| <==> forall c | c in cards :: c.suit == Diamonds
  {
    if |cards| == 0 then 0
    else (if cards[0].suit == Diamonds then 1 else 0) + DiamondCount(cards[1..])
  }

  /** A single card counts 1 exactly when it is a diamond. */
  lemma DiamondCountOne(c: Card)
    ensures DiamondCount([c]) == (if c.suit == Diamonds then 1 else 0)
  {
  }

  /** The count of two piles laid together is the sum of their counts, so
      with `DiamondCountOne` the count is one per diamond card. */
  lemma {:induction false} DiamondCountConcat(a: seq<Card>, b: seq<Card>)
    ensures DiamondCount(a + b) == DiamondCount(a) + DiamondCount(b)
  {
    if |a| == 0 {
      assert a + b == b;
    } else {
      assert (a + b)[1..] == a[1..] + b;
      DiamondCountConcat(a[1..], b);
    }
  }

  function Point(won: bool): nat {
    if won then 1 else 0
  }

  /** The final scores of players 1 and 2. */
  datatype Scores = Scores(player1: nat, player2: nat)

  /** One entry of the score sums in `game()`: the categories the pile
      `mine` wins strictly against `theirs`, the primiera being decided by
      the caller. */
  function CategoryPoints(mine: seq<Card>, theirs: seq<Card>, primieraWon: bool): (n: nat)
    ensures n <= 4
  {
    Point(|mine| > |theirs|)
    + Point(SetteBello(mine))
    + Point(DiamondCount(mine) > DiamondCount(theirs))
    + Point(primieraWon)
  }

  /** The score sums of `game()`: one point per category won strictly (more
      cards, the sette bello, more diamonds, the primiera) plus the scopas. */
  function FinalScores(pile1: Pile, pile2: Pile): (r: Scores)
    ensures pile1.scopas <= r.player1 <= pile1.scopas + 4
    ensures pile2.scopas <= r.player2 <= pile2.scopas + 4
  {
    var p1 := CalculatePrimiera(pile1.cards);
    var p2 := CalculatePrimiera(pile2.cards);
    var primiera := PrimieraScore(p1.suitsCovered, p2.suitsCovered, p1.sum, p2.sum);
    Scores(CategoryPoints(pile1.cards, pile2.cards, primiera.0 > primiera.1) + pile1.scopas,
           CategoryPoints(pile2.cards, pile1.cards, primiera.1 > primiera.0) + pile2.scopas)
  }

  /** The four scoring categories. */
  datatype Category = MostCards | SevenOfDiamonds | MostDiamonds | BestPrimiera

  /** What winning each category means for the pile `mine` against `theirs`. */
  predicate Wins(cat: Category, mine: seq<Card>, theirs: seq<Card>) {
    match cat
    case MostCards => |mine| > |theirs|
    case SevenOfDiamonds => Card(Seven, Diamonds) in mine
    case MostDiamonds => DiamondCount(mine) > DiamondCount(theirs)
    case BestPrimiera => Ahead(CalculatePrimiera(mine), CalculatePrimiera(theirs))
  }

  /** More suits, or as many suits and a higher sum. */
  predicate Ahead(a: Primiera, b: Primiera) {
    a.suitsCovered > b.suitsCovered || (a.suitsCovered == b.suitsCovered && a.sum > b.sum)
  }

  /** The categories the pile `mine` wins against `theirs`. */
  function Won(mine: seq<Card>, theirs: seq<Card>): set<Category> {
    set cat | cat in {MostCards, SevenOfDiamonds, MostDiamonds, BestPrimiera} && Wins(cat, mine, theirs)
  }

  /** Each player scores one point per category won plus the scopas. */
  lemma ScoresCountCategories(pile1: Pile, pile2: Pile)
    ensures FinalScores(pile1, pile2).player1 == |Won(pile1.cards, pile2.cards)| + pile1.scopas
    ensures FinalScores(pile1, pile2).player2 == |Won(pile2.cards, pile1.cards)| + pile2.scopas
  {
    var a, b := pile1.cards, pile2.cards;
    var p1 := CalculatePrimiera(a);
    var p2 := CalculatePrimiera(b);
    var primiera := PrimieraScore(p1.suitsCovered, p2.suitsCovered, p1.sum, p2.sum);
    PrimieraScoreLexicographic(p1.suitsCovered, p2.suitsCovered, p1.sum, p2.sum);
    assert primiera.0 > primiera.1 <==> Ahead(p1, p2);
    assert primiera.1 > primiera.0 <==> Ahead(p2, p1);
    assert Wins(BestPrimiera, a, b) == Ahead(p1, p2);
    assert Wins(BestPrimiera, b, a) == Ahead(p2, p1);
    assert FinalScores(pile1, pile2) == Scores(CategoryPoints(a, b, primiera.0 > primiera.1) + pile1.scopas,
                                               CategoryPoints(b, a, primiera.1 > primiera.0) + pile2.scopas);
    PointsCountWins(a, b, primiera.0 > primiera.1);
    PointsCountWins(b, a, primiera.1 > primiera.0);
  }

  /** With the primiera decided as `Wins` says, the points of a pile are the
      categories it wins. */
  lemma PointsCountWins(mine: seq<Card>, theirs: seq<Card>, primieraWon: bool)
    requires primieraWon == Wins(BestPrimiera, mine, theirs)
    ensures CategoryPoints(mine, theirs, primieraWon) == |Won(mine, theirs)|
  {
    CategoryCount(mine, theirs);
    assert Wins(MostCards, mine, theirs) == (|mine| > |theirs|);
    assert Wins(SevenOfDiamonds, mine, theirs) == SetteBello(mine);
    assert Wins(MostDiamonds, mine, theirs) == (DiamondCount(mine) > DiamondCount(theirs));
  }

  lemma CategoryCount(mine: seq<Card>, theirs: seq<Card>)
    ensures |Won(mine, theirs)| ==
      Point(Wins(MostCards, mine, theirs)) + Point(Wins(SevenOfDiamonds, mine, theirs))
      + Point(Wins(MostDiamonds, mine, theirs)) + Point(Wins(BestPrimiera, mine, theirs))
  {
    var w := Won(mine, theirs);
    forall e | e in w ensures e == MostCards || e == SevenOfDiamonds || e == MostDiamonds || e == BestPrimiera {
    }
    CountFour(w, MostCards, SevenOfDiamonds, MostDiamonds, BestPrimiera);
  }

  /** Scoring does not favour either seat: swapping the piles swaps the
      scores. */
  lemma ScoresSymmetric(pile1: Pile, pile2: Pile)
    ensures FinalScores(pile2, pile1) ==
      Scores(FinalScores(pile1, pile2).player2, FinalScores(pile1, pile2).player1)
  {
    var p1 := CalculatePrimiera(pile1.cards);
    var p2 := CalculatePrimiera(pile2.cards);
    PrimieraScoreSwap(p1.suitsCovered, p2.suitsCovered, p1.sum, p2.sum);
  }

  /** When no card lies in both piles, no category goes to both players, so
      the two scores together hold at most four categorical points. */
  lemma CategoriesExclusive(pile1: Pile, pile2: Pile)
    requires forall c | c in pile1.cards :: c !in pile2.cards
    ensures Won(pile1.cards, pile2.cards) !! Won(pile2.cards, pile1.cards)
    ensures FinalScores(pile1, pile2).player1 + FinalScores(pile1, pile2).player2
         <= 4 + pile1.scopas + pile2.scopas
  {
    var a, b := pile1.cards, pile2.cards;
    var w1 := Won(a, b);
    var w2 := Won(b, a);
    forall cat ensures !(Wins(cat, a, b) && Wins(cat, b, a)) {
      NotBothWin(cat, a, b);
    }
    assert w1 !! w2;
    ScoresCountCategories(pile1, pile2);
    var all := {MostCards, SevenOfDiamonds, MostDiamonds, BestPrimiera};
    assert w1 + w2 <= all;
    CountFour(all, MostCards, SevenOfDiamonds, MostDiamonds, BestPrimiera);
    SubsetSize(w1 + w2, all);
  }

  /** A category never goes to both of two disjoint piles. */
  lemma NotBothWin(cat: Category, a: seq<Card>, b: seq<Card>)
    requires forall c | c in a :: c !in b
    ensures !(Wins(cat, a, b) && Wins(cat, b, a))
  {
  }

  lemma SubsetSize(a: set<Category>, b: set<Category>)
    requires a <= b
    ensures |a| <= |b|
  {
    assert b == a + (b - a);
  }
}
