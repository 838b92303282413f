/** The fixed tables of the game: rank order, suits, category names, the
    ante-bonus pay table and the table limits. */
module Constants {
  import opened Types

  /** Ranks from lowest to highest; a rank's index here is its value. */
  const RankOrder: seq<Rank> :=
    [Two, Three, Four, Five, Six, Seven, Eight, Nine, Ten, Jack, Queen, King, Ace]

  /** The suits in the order the deck is built. */
  const Suits: seq<Suit> := [Clubs, Diamonds, Hearts, Spades]

  /** Ante-bonus multipliers. Only the three strongest categories have an
      entry; the lookup reads a missing entry as 0. */
  const AnteBonusPayout: map<HandRank, nat> :=
    map[StraightFlush := 5, ThreeOfAKind := 4, Straight := 1]

  const StartingBalance: int := 1000
  const MinBet: int := 10
  const MaxBet: int := 100

  /** Display name of each category. */
  function HandName(r: HandRank): (name: string)
    ensures |name| > 0
  {
    match r
    case HighCard => "High Card"
    case Pair => "Pair"
    case Flush => "Flush"
    case Straight => "Straight"
    case ThreeOfAKind => "Three of a Kind"
    case StraightFlush => "Straight Flush"
  }

  /** Different categories have different names. */
  lemma HandNamesDistinct(a: HandRank, b: HandRank)
    requires a != b
    ensures HandName(a) != HandName(b)
  {
  }

  predicate Distinct<T(==)>(s: seq<T>)
  {
    forall i, j :: 0 <= i < j < |s| ==> s[i] != s[j]
  }

  /** Array `indexOf`: the first position of `x` in `s`, or -1. */
  function IndexOf<T(==)>(s: seq<T>, x: T): (r: int)
    ensures -1 <= r < |s|
    ensures r == -1 <==> x !in s
    ensures 0 <= r ==> s[r] == x && forall k :: 0 <= k < r ==> s[k] != x
  {
    if |s| == 0 then -1
    else if s[0] == x then 0
    else
      var k := IndexOf(s[1..], x);
      if k == -1 then -1 else k + 1
  }

  /** The value of a rank: its position in `RankOrder`. */
  function RankIndex(r: Rank): (i: int)
    ensures 0 <= i < |RankOrder| && RankOrder[i] == r
  {
    match r
    case Two => 0
    case Three => 1
    case Four => 2
    case Five => 3
    case Six => 4
    case Seven => 5
    case Eight => 6
    case Nine => 7
    case Ten => 8
    case Jack => 9
    case Queen => 10
    case King => 11
    case Ace => 12
  }

  /** The position table agrees with array `indexOf` over `RankOrder`:
      every rank is found, at its value. */
  lemma RankIndexIsIndexOf(r: Rank)
    ensures IndexOf(RankOrder, r) == RankIndex(r)
  {
    var i := IndexOf(RankOrder, r);
    assert r in RankOrder;
    RankOrderComplete(r);
  }

  /** `RankOrder` lists 13 distinct ranks and every rank appears in it. */
  lemma RankOrderComplete(r: Rank)
    ensures |RankOrder| == 13 && Distinct(RankOrder)
    ensures r in RankOrder
  {
    assert RankOrder[RankIndex(r)] == r;
  }

  /** Index lookup is a bijection between ranks and 0..12, with Two at 0,
      Queen at 10 and Ace at 12. */
  lemma RankIndexBijective(a: Rank, b: Rank, i: int)
    requires 0 <= i < 13
    ensures RankIndex(a) == RankIndex(b) ==> a == b
    ensures RankIndex(RankOrder[i]) == i
    ensures RankIndex(Two) == 0 && RankIndex(Queen) == 10 && RankIndex(Ace) == 12
  {
    assert RankOrder[0] == Two && RankOrder[10] == Queen && RankOrder[12] == Ace;
    RankOrderComplete(a);
    RankOrderIndexUnique(i, RankIndex(RankOrder[i]));
    RankOrderIndexUnique(0, RankIndex(Two));
    RankOrderIndexUnique(10, RankIndex(Queen));
    RankOrderIndexUnique(12, RankIndex(Ace));
  }

  lemma RankOrderIndexUnique(i: int, j: int)
    requires 0 <= i < 13 && 0 <= j < 13
    requires RankOrder[i] == RankOrder[j]
    ensures i == j
  {
    RankOrderComplete(Two);
  }

  /** `Suits` lists the 4 distinct suits. */
  lemma SuitsComplete(s: Suit)
    ensures |Suits| == 4 && Distinct(Suits)
    ensures s in Suits
  {
  }

  /** The table limits are ordered: a minimum bet fits under the maximum
      and a fresh balance covers the maximum bet. */
  lemma LimitsOrdered()
    ensures 0 < MinBet <= MaxBet <= StartingBalance
  {
  }
}
