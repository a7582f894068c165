/** Cards of the 40-card Italian deck: ten ranks with a face value, four
    suits, string validation of both, and the per-card key. */
module Cards {
  import opened Wrappers

  /** The keys of `rank_to_numeric_value`, in table order. */
  datatype Rank = Ace | Two | Three | Four | Five | Six | Seven | Jack | Queen | King

  /** The keys of `suit_full_to_short_name`, in table order. */
  datatype Suit = Diamonds | Hearts | Spades | Clubs

  /** Two cards are equal exactly when rank and suit are, as `Card.__eq__`. */
  datatype Card = Card(rank: Rank, suit: Suit)

  const Ranks: seq<Rank> := [Ace, Two, Three, Four, Five, Six, Seven, Jack, Queen, King]
  const Suits: seq<Suit> := [Diamonds, Hearts, Spades, Clubs]

  /** The string key a rank has in `rank_to_numeric_value`. */
  function RankName(r: Rank): string {
    match r
    case Ace => "A"
    case Two => "2"
    case Three => "3"
    case Four => "4"
    case Five => "5"
    case Six => "6"
    case Seven => "7"
    case Jack => "J"
    case Queen => "Q"
    case King => "K"
  }

  /** The numeric value `rank_to_numeric_value` assigns to a rank. */
  function RankValue(r: Rank): nat {
    match r
    case Ace => 1
    case Two => 2
    case Three => 3
    case Four => 4
    case Five => 5
    case Six => 6
    case Seven => 7
    case Jack => 8
    case Queen => 9
    case King => 10
  }

  /** The full suit name, a key of `suit_full_to_short_name`. */
  function SuitName(s: Suit): string {
    match s
    case Diamonds => "diamonds"
    case Hearts => "hearts"
    case Spades => "spades"
    case Clubs => "clubs"
  }

  /** The one-letter suit code `suit_full_to_short_name` maps a suit to. */
  function SuitLetter(s: Suit): string {
    match s
    case Diamonds => "d"
    case Hearts => "h"
    case Spades => "s"
    case Clubs => "c"
  }

  /** Position of a rank among the table's keys. */
  function RankIndex(r: Rank): (i: nat)
    ensures i < |Ranks| && Ranks[i] == r
  {
    match r
    case Ace => 0
    case Two => 1
    case Three => 2
    case Four => 3
    case Five => 4
    case Six => 5
    case Seven => 6
    case Jack => 7
    case Queen => 8
    case King => 9
  }

  /** Position of a suit among the table's keys. */
  function SuitIndex(s: Suit): (i: nat)
    ensures i < |Suits| && Suits[i] == s
  {
    match s
    case Diamonds => 0
    case Hearts => 1
    case Spades => 2
    case Clubs => 3
  }

  /** Dictionary lookup of a rank string among the table's keys. */
  function ParseRank(name: string): (r: Option<Rank>)
    ensures r.Some? ==> RankName(r.value) == name
    ensures r.None? ==> forall k :: RankName(k) != name
  {
    if name == "A" then Some(Ace)
    else if name == "2" then Some(Two)
    else if name == "3" then Some(Three)
    else if name == "4" then Some(Four)
    else if name == "5" then Some(Five)
    else if name == "6" then Some(Six)
    else if name == "7" then Some(Seven)
    else if name == "J" then Some(Jack)
    else if name == "Q" then Some(Queen)
    else if name == "K" then Some(King)
    else None
  }

  /** Dictionary lookup of a suit string among the table's keys. */
  function ParseSuit(name: string): (s: Option<Suit>)
    ensures s.Some? ==> SuitName(s.value) == name
    ensures s.None? ==> forall k :: SuitName(k) != name
  {
    if name == "diamonds" then Some(Diamonds)
    else if name == "hearts" then Some(Hearts)
    else if name == "spades" then Some(Spades)
    else if name == "clubs" then Some(Clubs)
    else None
  }

  /** `card_rank_check`: the string is one of the ten rank keys. */
  function CardRankCheck(rank: string): (ok: bool)
    ensures ok <==> exists k :: RankName(k) == rank
  {
    ParseRank(rank).Some?
  }

  /** `card_suit_check`: the string is one of the four suit names. */
  function CardSuitCheck(suit: string): (ok: bool)
    ensures ok <==> exists k :: SuitName(k) == suit
  {
    ParseSuit(suit).Some?
  }

  /** The two assertions of `Card.__init__`, checked rank first. */
  datatype CardError = InvalidRank | InvalidSuit

  /** `Card(rank, suit)`: refuses to build a card from an unknown rank or suit. */
  function NewCard(rank: string, suit: string): (r: Result<Card, CardError>)
    ensures r.Ok? <==> CardRankCheck(rank) && CardSuitCheck(suit)
    ensures r == Err(InvalidRank) <==> !CardRankCheck(rank)
    ensures r.Ok? ==> RankName(r.value.rank) == rank && SuitName(r.value.suit) == suit
  {
    match ParseRank(rank)
    case None => Err(InvalidRank)
    case Some(k) =>
      match ParseSuit(suit)
      case None => Err(InvalidSuit)
      case Some(s) => Ok(Card(k, s))
  }

  /** Every card can be rebuilt from its rank and suit names, so the string
      tables and the datatypes describe the same 40 cards. */
  lemma NewCardRoundTrip(c: Card)
    ensures NewCard(RankName(c.rank), SuitName(c.suit)) == Ok(c)
  {
    match c.rank {
      case Ace => case Two => case Three => case Four => case Five =>
      case Six => case Seven => case Jack => case Queen => case King =>
    }
  }

  /** `Card.card_value`. */
  function CardValue(c: Card): (v: nat)
    ensures 1 <= v <= 10
    ensures v == RankIndex(c.rank) + 1
  {
    RankValue(c.rank)
  }

  /** Cards of different ranks have different values. */
  lemma {:induction false} ValueDeterminesRank(a: Card, b: Card)
    ensures CardValue(a) == CardValue(b) <==> a.rank == b.rank
  {
    if CardValue(a) == CardValue(b) {
      assert Ranks[RankIndex(a.rank)] == a.rank;
      assert Ranks[RankIndex(b.rank)] == b.rank;
    }
  }

  /** `Card.key`: the rank key followed by the suit letter. */
  function Key(c: Card): string {
    RankName(c.rank) + SuitLetter(c.suit)
  }

  /** Keys identify cards: two cards share a key exactly when they are equal. */
  lemma KeyInjective(a: Card, b: Card)
    ensures Key(a) == Key(b) <==> a == b
  {
    if Key(a) == Key(b) {
      assert |RankName(a.rank)| == 1 && |RankName(b.rank)| == 1;
      assert Key(a)[0] == RankName(a.rank)[0];
      assert Key(b)[0] == RankName(b.rank)[0];
      assert Key(a)[1..] == SuitLetter(a.suit);
      assert Key(b)[1..] == SuitLetter(b.suit);
    }
  }
}
