/** Classifying a three-card hand into a category with tie-break values. */
module Evaluation {
  import opened Types
  import opened Constants

  /** The value of a card: the index of its rank in `RankOrder`. */
  function Value(c: Card): int
  {
    RankIndex(c.rank)
  }

  /** `v` holds x, y and z in some order. */
  predicate IsArrangement(v: seq<int>, x: int, y: int, z: int)
  {
    |v| == 3 &&
    ( || (v[0] == x && v[1] == y && v[2] == z)
      || (v[0] == x && v[1] == z && v[2] == y)
      || (v[0] == y && v[1] == x && v[2] == z)
      || (v[0] == y && v[1] == z && v[2] == x)
      || (v[0] == z && v[1] == x && v[2] == y)
      || (v[0] == z && v[1] == y && v[2] == x))
  }

  /** Three numbers in non-increasing order. */
  function SortDescending(x: int, y: int, z: int): (v: seq<int>)
    ensures |v| == 3 && v[0] >= v[1] >= v[2]
    ensures IsArrangement(v, x, y, z)
  {
    if x >= y then
      if y >= z then [x, y, z]
      else if x >= z then [x, z, y]
      else [z, x, y]
    else
      if x >= z then [y, x, z]
      else if y >= z then [y, z, x]
      else [z, y, x]
  }

  /** The hand's card values, highest first. */
  function CardValues(h: Hand): (v: seq<int>)
    ensures |v| == 3 && v[0] >= v[1] >= v[2]
    ensures 0 <= v[2] && v[0] < 13
    ensures IsArrangement(v, Value(h.first), Value(h.second), Value(h.third))
  {
    SortDescending(Value(h.first), Value(h.second), Value(h.third))
  }

  /** Every card has the suit of the first card. */
  predicate IsFlush(h: Hand)
  {
    h.second.suit == h.first.suit && h.third.suit == h.first.suit
  }

  /** The flush test is "every card has the first card's suit", read over
      the hand's cards in dealt order. */
  lemma FlushIsEverySuit(h: Hand)
    ensures IsFlush(h) <==> forall k :: 0 <= k < |h.Cards()| ==> h.Cards()[k].suit == h.first.suit
  {
    assert h.Cards()[1] == h.second && h.Cards()[2] == h.third;
  }

  /** Sorted values that form a straight: three consecutive values, or
      the Ace-low case A-3-2 read as [12, 1, 0]. */
  predicate IsStraight(v: seq<int>): (b: bool)
    requires |v| == 3
    ensures b ==> v[0] != v[1] && v[1] != v[2] && v[0] != v[2]
  {
    (v[0] == 12 && v[1] == 1 && v[2] == 0) || (v[0] - v[1] == 1 && v[1] - v[2] == 1)
  }

  /** Array `find` for the first element different from `x`: it is found
      at some position, and every position before it holds `x`. */
  function FindOther(s: seq<int>, x: int): (r: Option<int>)
    ensures r.None? <==> forall k :: 0 <= k < |s| ==> s[k] == x
    ensures r.Some? ==> r.value in s && r.value != x
    ensures r.Some? && |s| > 0 && s[0] != x ==> r.value == s[0]
    ensures r.Some? ==> exists k :: 0 <= k < |s| && s[k] == r.value && forall m :: 0 <= m < k ==> s[m] == x
  {
    if |s| == 0 then None
    else if s[0] != x then
      assert s[0] == s[0];
      Some(s[0])
    else
      var r := FindOther(s[1..], x);
      if r.Some? then
        FoundAfterHead(s, x, r.value);
        r
      else r
  }

  /** A witness for `s[1..]` whose head is `x` shifts to a witness for `s`. */
  lemma FoundAfterHead(s: seq<int>, x: int, v: int)
    requires |s| > 0 && s[0] == x
    requires exists k :: 0 <= k < |s[1..]| && s[1..][k] == v && forall m :: 0 <= m < k ==> s[1..][m] == x
    ensures exists k :: 0 <= k < |s| && s[k] == v && forall m :: 0 <= m < k ==> s[m] == x
  {
    var k :| 0 <= k < |s[1..]| && s[1..][k] == v && forall m :: 0 <= m < k ==> s[1..][m] == x;
    assert s[k + 1] == v;
    forall m | 0 <= m < k + 1
      ensures s[m] == x
    {
      if m > 0 {
        assert s[m] == s[1..][m - 1];
      }
    }
  }

  /** An evaluation carrying its category's display name. */
  function Evaluated(rank: HandRank, values: seq<int>): HandEvaluation
  {
    HandEvaluation(rank, HandName(rank), values)
  }

  /** Classify a hand. The tie-break values are the three sorted values,
      except for a Pair, which keeps [paired value, kicker]. */
  function EvaluateHand(h: Hand): (e: HandEvaluation)
    ensures e.name == HandName(e.rank)
    ensures |e.values| == if e.rank == Pair then 2 else 3
    ensures e.rank != Pair ==> e.values == CardValues(h)
    ensures e.rank == Pair ==>
      && e.values[0] != e.values[1]
      && IsArrangement(CardValues(h), e.values[0], e.values[0], e.values[1])
    ensures forall k :: 0 <= k < |e.values| ==> 0 <= e.values[k] < 13
  {
    var values := CardValues(h);
    var isFlush := IsFlush(h);
    var isStraight := IsStraight(values);
    if isStraight && isFlush then Evaluated(StraightFlush, values)
    else if values[0] == values[1] && values[1] == values[2] then Evaluated(ThreeOfAKind, values)
    else if isStraight then Evaluated(Straight, values)
    else if isFlush then Evaluated(Flush, values)
    else if values[0] == values[1] || values[1] == values[2] then
      var paired := if values[0] == values[1] then values[0] else values[2];
      var kicker := FindOther(values, paired).value;
      Evaluated(Pair, [paired, kicker])
    else Evaluated(HighCard, values)
  }

  // Reference descriptions of the categories, stated on the hand as dealt
  // (unsorted), without the sorted values the evaluator works on.

  /** All three cards have the same rank. */
  predicate AllSameRank(h: Hand)
  {
    h.first.rank == h.second.rank && h.second.rank == h.third.rank
  }

  /** Some two of the three cards have the same rank. */
  predicate SomeSameRank(h: Hand)
  {
    h.first.rank == h.second.rank || h.second.rank == h.third.rank || h.first.rank == h.third.rank
  }

  function Max3(a: int, b: int, c: int): int
  {
    if a >= b && a >= c then a else if b >= c then b else c
  }

  function Min3(a: int, b: int, c: int): int
  {
    if a <= b && a <= c then a else if b <= c then b else c
  }

  /** Three different ranks in sequence: their values span exactly three
      consecutive numbers, or the ranks are Ace, Two and Three. */
  predicate InSequence(h: Hand)
  {
    var a, b, c := Value(h.first), Value(h.second), Value(h.third);
    || (a != b && b != c && a != c && Max3(a, b, c) - Min3(a, b, c) == 2)
    || {h.first.rank, h.second.rank, h.third.rank} == {Ace, Two, Three}
  }

  /** The evaluator's straight test on sorted values is exactly "three
      different ranks in sequence" on the hand. */
  lemma StraightMeansInSequence(h: Hand)
    ensures IsStraight(CardValues(h)) <==> InSequence(h)
  {
    var a, b, c := Value(h.first), Value(h.second), Value(h.third);
    RankIndexBijective(h.first.rank, h.second.rank, 0);
    RankIndexBijective(h.second.rank, h.third.rank, 0);
    RankIndexBijective(h.first.rank, h.third.rank, 0);
    AceLowValues(h);
  }

  lemma AceLowValues(h: Hand)
    ensures {h.first.rank, h.second.rank, h.third.rank} == {Ace, Two, Three}
        <==> IsArrangement([12, 1, 0], Value(h.first), Value(h.second), Value(h.third))
  {
    RankIndexBijective(Ace, Ace, 1);
    RankIndexBijective(h.first.rank, Two, 1);
    RankIndexBijective(h.second.rank, Two, 1);
    RankIndexBijective(h.third.rank, Two, 1);
    RankIndexBijective(h.first.rank, Ace, 1);
    RankIndexBijective(h.second.rank, Ace, 1);
    RankIndexBijective(h.third.rank, Ace, 1);
    RankIndexBijective(h.first.rank, Three, 1);
    RankIndexBijective(h.second.rank, Three, 1);
    RankIndexBijective(h.third.rank, Three, 1);
    assert RankIndex(Three) == 1 by { RankIndexBijective(Three, Three, 1); }
  }

  /** The category the evaluator assigns, described on the hand as dealt:
      the checks run from the strongest category down, so each category
      is "its own shape, and none of the stronger shapes". */
  lemma EvaluateHandCategory(h: Hand)
    ensures var r := EvaluateHand(h).rank;
      && (r == StraightFlush <==> InSequence(h) && IsFlush(h))
      && (r == ThreeOfAKind <==> AllSameRank(h))
      && (r == Straight <==> InSequence(h) && !IsFlush(h))
      && (r == Flush <==> IsFlush(h) && !InSequence(h) && !AllSameRank(h))
      && (r == Pair <==> SomeSameRank(h) && !AllSameRank(h) && !IsFlush(h))
      && (r == HighCard <==> !SomeSameRank(h) && !IsFlush(h) && !InSequence(h))
  {
    StraightMeansInSequence(h);
    RankIndexBijective(h.first.rank, h.second.rank, 0);
    RankIndexBijective(h.second.rank, h.third.rank, 0);
    RankIndexBijective(h.first.rank, h.third.rank, 0);
  }
}
