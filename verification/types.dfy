/** The value types of the three-card poker table: cards, hands, hand
    categories, evaluations and the phases of the game screen. */
module Types {

  /** A value that may be missing: a hand not yet dealt, or an array
      search that found nothing. */
  datatype Option<+T> = None | Some(value: T)

  /** The four suits; they carry no order. */
  datatype Suit = Clubs | Diamonds | Hearts | Spades

  /** The thirteen ranks, declared from lowest to highest. Their numeric
      value is their position in `Constants.RankOrder`. */
  datatype Rank = Two | Three | Four | Five | Six | Seven | Eight | Nine
                | Ten | Jack | Queen | King | Ace

  /** A card is a (suit, rank) pair compared by value. */
  datatype Card = Card(suit: Suit, rank: Rank)

  /** A hand is exactly three cards, in the order they were dealt. */
  datatype Hand = Hand(first: Card, second: Card, third: Card)
  {
    function Cards(): (cs: seq<Card>)
      ensures |cs| == 3
      ensures cs[0] == first && cs[1] == second && cs[2] == third
    {
      [first, second, third]
    }
  }

  /** Hand categories, weakest first. In three-card poker a Flush ranks
      below a Straight. */
  datatype HandRank = HighCard | Pair | Flush | Straight | ThreeOfAKind | StraightFlush

  /** The numeric value the source's enum gives each category. */
  function Ordinal(r: HandRank): (n: nat)
    ensures n <= 5
    ensures HandRankAt(n) == r
  {
    match r
    case HighCard => 0
    case Pair => 1
    case Flush => 2
    case Straight => 3
    case ThreeOfAKind => 4
    case StraightFlush => 5
  }

  /** The category with a given enum value; every value above 5 is clamped
      to the strongest category. */
  function HandRankAt(n: nat): HandRank
  {
    if n == 0 then HighCard
    else if n == 1 then Pair
    else if n == 2 then Flush
    else if n == 3 then Straight
    else if n == 4 then ThreeOfAKind
    else StraightFlush
  }

  /** The enum values are the six consecutive numbers 0..5 and name six
      different categories, so comparing ordinals is a total order. */
  lemma OrdinalBijective(n: nat)
    requires n <= 5
    ensures Ordinal(HandRankAt(n)) == n
  {
  }

  /** The result of classifying a hand: its category, the display name of
      that category, and the tie-break values (rank indices). */
  datatype HandEvaluation = HandEvaluation(rank: HandRank, name: string, values: seq<int>)

  /** The phases of the game screen. */
  datatype GameState = Loading | Naming | Betting | Dealing | PlayerTurn | Reveal | Payout
}
