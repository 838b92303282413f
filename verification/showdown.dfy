/** Comparing two evaluated hands, dealer qualification and the winner of
    a showdown. */
module Showdown {
  import opened Types
  import opened Constants
  import opened Evaluation

  /** The tie-break loop from position `i` on: the first position where
      the player's value differs from the dealer's decides. A position past
      the end of the dealer's list compares as neither greater nor smaller
      (an absent array element), so the loop simply moves on. */
  function CompareFrom(p: seq<int>, d: seq<int>, i: nat): (c: int)
    ensures -1 <= c <= 1
    ensures i >= |p| ==> c == 0
    decreases |p| - i
  {
    if i >= |p| then 0
    else if i < |d| && p[i] > d[i] then 1
    else if i < |d| && p[i] < d[i] then -1
    else CompareFrom(p, d, i + 1)
  }

  /** Compare two evaluations: the stronger category wins, and equal
      categories are decided by the tie-break values. */
  function CompareHands(pe: HandEvaluation, de: HandEvaluation): (c: int)
    ensures -1 <= c <= 1
    ensures Ordinal(pe.rank) > Ordinal(de.rank) ==> c == 1
    ensures Ordinal(pe.rank) < Ordinal(de.rank) ==> c == -1
  {
    if Ordinal(pe.rank) > Ordinal(de.rank) then 1
    else if Ordinal(pe.rank) < Ordinal(de.rank) then -1
    else CompareFrom(pe.values, de.values, 0)
  }

  /** `k` is the first position at or after `i` where both lists hold
      different values. */
  predicate FirstDifference(p: seq<int>, d: seq<int>, i: nat, k: nat)
  {
    && i <= k < |p| && k < |d| && p[k] != d[k]
    && forall m :: i <= m < k && m < |d| ==> p[m] == d[m]
  }

  /** The loop is the lexicographic order: it answers with the sign of the
      first difference. */
  lemma {:induction false} CompareAtFirstDifference(p: seq<int>, d: seq<int>, i: nat, k: nat)
    requires FirstDifference(p, d, i, k)
    ensures CompareFrom(p, d, i) == (if p[k] > d[k] then 1 else -1)
    decreases k - i
  {
    if i < k {
      assert p[i] == d[i];
      CompareAtFirstDifference(p, d, i + 1, k);
    }
  }

  /** The loop reports a tie exactly when the two lists agree on every
      position they share from `i` on. */
  lemma {:induction false} CompareTieMeansAgree(p: seq<int>, d: seq<int>, i: nat)
    ensures CompareFrom(p, d, i) == 0 <==> forall m :: i <= m < |p| && m < |d| ==> p[m] == d[m]
    decreases |p| - i
  {
    if i < |p| {
      CompareTieMeansAgree(p, d, i + 1);
    }
  }

  /** Swapping the two lists negates the answer, whatever their lengths. */
  lemma {:induction false} CompareFromAntisymmetric(p: seq<int>, d: seq<int>, i: nat)
    ensures CompareFrom(p, d, i) == -CompareFrom(d, p, i)
    decreases |p| + |d| - i
  {
    if i < |p| || i < |d| {
      CompareFromAntisymmetric(p, d, i + 1);
    }
  }

  /** Comparing two hands is antisymmetric and a hand ties with itself. */
  lemma CompareHandsAntisymmetric(a: HandEvaluation, b: HandEvaluation)
    ensures CompareHands(a, b) == -CompareHands(b, a)
    ensures CompareHands(a, a) == 0
  {
    CompareFromAntisymmetric(a.values, b.values, 0);
    CompareTieMeansAgree(a.values, a.values, 0);
  }

  /** Hands of equal category with different tie-break values are decided
      by the first value in which they differ. */
  lemma CompareHandsLexicographic(a: HandEvaluation, b: HandEvaluation, k: nat)
    requires a.rank == b.rank
    requires FirstDifference(a.values, b.values, 0, k)
    ensures CompareHands(a, b) == (if a.values[k] > b.values[k] then 1 else -1)
  {
    CompareAtFirstDifference(a.values, b.values, 0, k);
  }

  /** Who takes the showdown. */
  datatype Winner = PlayerWins | DealerWins | Push

  /** The outcome of a showdown and whether the dealer qualified (the
      display message is not modelled). */
  datatype Outcome = Outcome(result: Winner, dealerQualified: bool)

  /** The dealer qualifies with any category above High Card, or with a
      High Card hand whose top value reaches the Queen. */
  predicate DealerQualifies(e: HandEvaluation): (b: bool)
    ensures b <==> e.rank != HighCard || (|e.values| > 0 && e.values[0] >= 10)
  {
    || Ordinal(e.rank) > Ordinal(HighCard)
    || (e.rank == HighCard && |e.values| > 0 && e.values[0] >= RankIndex(Queen))
  }

  /** Settle the showdown between the player's and the dealer's hands. */
  function DetermineWinner(player: Hand, dealer: Hand): (o: Outcome)
    ensures o.dealerQualified == DealerQualifies(EvaluateHand(dealer))
    ensures !o.dealerQualified ==> o.result == PlayerWins
    ensures o.dealerQualified ==>
      var c := CompareHands(EvaluateHand(player), EvaluateHand(dealer));
      && (o.result == PlayerWins <==> c > 0)
      && (o.result == DealerWins <==> c < 0)
      && (o.result == Push <==> c == 0)
  {
    var pe := EvaluateHand(player);
    var de := EvaluateHand(dealer);
    if !DealerQualifies(de) then Outcome(PlayerWins, false)
    else
      var c := CompareHands(pe, de);
      if c > 0 then Outcome(PlayerWins, true)
      else if c < 0 then Outcome(DealerWins, true)
      else Outcome(Push, true)
  }

  /** Qualification described on the dealt cards: the dealer qualifies
      exactly when the hand holds two cards of a rank, is suited, is in
      sequence, or holds a Queen or better. */
  lemma DealerQualifiesOnCards(h: Hand)
    ensures DealerQualifies(EvaluateHand(h))
        <==> || SomeSameRank(h) || IsFlush(h) || InSequence(h)
             || Value(h.first) >= RankIndex(Queen)
             || Value(h.second) >= RankIndex(Queen)
             || Value(h.third) >= RankIndex(Queen)
  {
    EvaluateHandCategory(h);
  }

  /** When the dealer qualifies, exchanging the two hands exchanges the
      winner; a push stays a push. */
  lemma DetermineWinnerSwap(a: Hand, b: Hand)
    requires DealerQualifies(EvaluateHand(a)) && DealerQualifies(EvaluateHand(b))
    ensures var ab, ba := DetermineWinner(a, b), DetermineWinner(b, a);
      && (ab.result == PlayerWins <==> ba.result == DealerWins)
      && (ab.result == Push <==> ba.result == Push)
  {
    CompareHandsAntisymmetric(EvaluateHand(a), EvaluateHand(b));
  }

  /** The Ace keeps its high value in the A-2-3 straight, so that straight
      beats King-Queen-Jack and loses only to Ace-King-Queen. */
  lemma AceLowStraightRanksHigh()
    ensures var wheel := EvaluateHand(Hand(Card(Spades, Ace), Card(Hearts, Two), Card(Clubs, Three)));
      var kqj := EvaluateHand(Hand(Card(Spades, King), Card(Hearts, Queen), Card(Clubs, Jack)));
      var akq := EvaluateHand(Hand(Card(Spades, Ace), Card(Hearts, King), Card(Clubs, Queen)));
      && wheel.rank == Straight && kqj.rank == Straight && akq.rank == Straight
      && CompareHands(wheel, kqj) == 1
      && CompareHands(wheel, akq) == -1
  {
    var wheel := EvaluateHand(Hand(Card(Spades, Ace), Card(Hearts, Two), Card(Clubs, Three)));
    var kqj := EvaluateHand(Hand(Card(Spades, King), Card(Hearts, Queen), Card(Clubs, Jack)));
    var akq := EvaluateHand(Hand(Card(Spades, Ace), Card(Hearts, King), Card(Clubs, Queen)));
    assert wheel.values == [12, 1, 0];
    assert kqj.values == [11, 10, 9];
    assert akq.values == [12, 11, 10];
    CompareAtFirstDifference(wheel.values, kqj.values, 0, 0);
    CompareAtFirstDifference(wheel.values, akq.values, 0, 1);
  }
}
