/** The deck: building the 52 cards, the Fisher-Yates shuffle and the deal
    of two three-card hands. The source's module-level deck variable is
    replaced by a value built fresh for every deal, and `Math.random` by an
    injected stream of draws. */
module Deck {
  import opened Types
  import opened Constants

  /** One `Math.random()` draw: a real in [0, 1). */
  type Roll = x: real | 0.0 <= x < 1.0

  /** A sequence is duplicate-free exactly when every element occurs in it
      at most once. */
  lemma {:induction false} DistinctCounts<T>(s: seq<T>)
    ensures Distinct(s) <==> forall x :: multiset(s)[x] <= 1
  {
    if |s| > 0 {
      DistinctCounts(s[1..]);
      assert s == [s[0]] + s[1..];
      assert multiset(s) == multiset{s[0]} + multiset(s[1..]);
      if Distinct(s) {
        assert s[0] !in s[1..];
        assert Distinct(s[1..]) by {
          forall i, j | 0 <= i < j < |s[1..]| ensures s[1..][i] != s[1..][j] {
            assert s[1..][i] == s[i + 1] && s[1..][j] == s[j + 1];
          }
        }
      }
      if forall x :: multiset(s)[x] <= 1 {
        assert forall x :: multiset(s[1..])[x] <= 1 by {
          forall x ensures multiset(s[1..])[x] <= 1 {
            assert multiset(s)[x] == multiset{s[0]}[x] + multiset(s[1..])[x];
          }
        }
        assert multiset(s)[s[0]] == 1 + multiset(s[1..])[s[0]];
        assert s[0] !in s[1..];
        forall i, j | 0 <= i < j < |s| ensures s[i] != s[j] {
          if i == 0 {
            assert s[j] == s[1..][j - 1];
          } else {
            assert s[i] == s[1..][i - 1] && s[j] == s[1..][j - 1];
          }
        }
      }
    }
  }

  /** The unshuffled deck, built suit by suit in the order of `Suits` and,
      within a suit, rank by rank in the order of `RankOrder`. */
  function CreateDeck(): (d: seq<Card>)
    ensures |d| == |Suits| * |RankOrder|
  {
    seq(52, i requires 0 <= i < 52 => Card(Suits[i / 13], RankOrder[i % 13]))
  }

  /** Suits form the outer loop and ranks the inner one: the card of the
      s-th suit and r-th rank sits at position 13 s + r. */
  lemma CreateDeckOrder(s: int, r: int)
    requires 0 <= s < |Suits| && 0 <= r < |RankOrder|
    ensures CreateDeck()[13 * s + r] == Card(Suits[s], RankOrder[r])
  {
    var k := 13 * s + r;
    assert k / 13 == s && k % 13 == r;
  }

  /** The fresh deck holds 52 cards and every (suit, rank) pair exactly
      once. */
  lemma CreateDeckExactlyOnce()
    ensures |CreateDeck()| == 52
    ensures forall c :: multiset(CreateDeck())[c] == 1
    ensures Distinct(CreateDeck())
  {
    var d := CreateDeck();
    forall i, j | 0 <= i < j < 52 ensures d[i] != d[j] {
      DeckPositionsDiffer(i, j);
    }
    DistinctCounts(d);
    forall c ensures multiset(d)[c] == 1 {
      DeckHolds(c);
    }
  }

  lemma DeckPositionsDiffer(i: int, j: int)
    requires 0 <= i < j < 52
    ensures CreateDeck()[i] != CreateDeck()[j]
  {
    var d := CreateDeck();
    SuitsComplete(Clubs);
    RankOrderComplete(Two);
    assert i == 13 * (i / 13) + i % 13 && j == 13 * (j / 13) + j % 13;
    if d[i] == d[j] {
      RankOrderIndexUnique(i % 13, j % 13);
      SuitsIndexUnique(i / 13, j / 13);
    }
  }

  lemma DeckHolds(c: Card)
    ensures c in CreateDeck()
  {
    SuitsComplete(c.suit);
    var s := IndexOf(Suits, c.suit);
    var r := RankIndex(c.rank);
    CreateDeckOrder(s, r);
  }

  lemma SuitsIndexUnique(i: int, j: int)
    requires 0 <= i < 4 && 0 <= j < 4
    requires Suits[i] == Suits[j]
    ensures i == j
  {
    SuitsComplete(Clubs);
  }

  /** `Math.floor(Math.random() * (i + 1))`: a position in 0..i. */
  function DrawIndex(x: Roll, i: nat): (j: nat)
    ensures j <= i
    ensures (j as real) <= x * ((i + 1) as real) < (j as real) + 1.0
  {
    var n := (i + 1) as real;
    assert 0.0 <= x * n < n by {
      assert x * n <= 1.0 * n;
      assert x * n != n;
    }
    (x * n).Floor
  }

  /** Every position 0..i comes out of some draw, so a sequence of draws
      can make every choice the shuffle allows. */
  lemma EveryIndexDrawable(i: nat, j: nat)
    requires j <= i
    ensures DrawIndex((j as real) / ((i + 1) as real), i) == j
  {
    var n := (i + 1) as real;
    var x := (j as real) / n;
    assert x * n == j as real;
  }

  /** Swap choices for shuffling `n` cards: the k-th choice, made for
      position n - 1 - k, lies in 0..n - 1 - k. */
  predicate ValidPicks(picks: seq<nat>, n: int)
  {
    && |picks| >= n - 1
    && forall k :: 0 <= k < |picks| && k < n - 1 ==> picks[k] <= n - 1 - k
  }

  /** The swap choices the source's loop draws for `n` cards, one
      `Math.random()` per position from n - 1 down to 1. */
  function Draws(random: nat -> Roll, n: nat): (picks: seq<nat>)
    ensures ValidPicks(picks, n)
  {
    if n == 0 then []
    else
      var draws := seq(n - 1, k requires 0 <= k < n - 1 => DrawIndex(random(k), n - 1 - k));
      assert forall k :: 0 <= k < |draws| ==> 0 <= draws[k] <= n - 1 - k by {
        forall k | 0 <= k < |draws| ensures 0 <= draws[k] <= n - 1 - k {
          assert draws[k] == DrawIndex(random(k), n - 1 - k);
        }
      }
      draws
  }

  /** The roll that makes the source's loop draw position `j` out of
      `m` choices: `j / m`. */
  function RollFor(j: nat, m: nat): (x: Roll)
    requires j < m
    ensures x * (m as real) == j as real
  {
    var x := (j as real) / (m as real);
    assert x * (m as real) == j as real;
    x
  }

  /** The rolls that make the source's loop draw exactly `picks`. */
  function RollsFor(picks: seq<nat>, n: nat): (random: nat -> Roll)
    requires ValidPicks(picks, n)
    ensures forall k :: 0 <= k < n - 1 ==> random(k) == RollFor(picks[k], n - k)
  {
    (k: nat) => if k < n - 1 && k < |picks| then RollFor(picks[k], n - k) else 0.0
  }

  /** Every sequence of valid swap choices is drawn by some stream of
      rolls, so the shuffle below, taken over all valid choices, is taken
      over exactly the outcomes `Math.random` can produce. */
  lemma EveryChoiceDrawable(picks: seq<nat>, n: nat)
    requires n > 0 && |picks| == n - 1 && ValidPicks(picks, n)
    ensures Draws(RollsFor(picks, n), n) == picks
  {
    var random := RollsFor(picks, n);
    var draws := Draws(random, n);
    forall k | 0 <= k < n - 1 ensures draws[k] == picks[k] {
      assert random(k) == RollFor(picks[k], n - k);
      EveryIndexDrawable(n - 1 - k, picks[k]);
    }
  }

  /** The swap choices of one shuffle of a full deck. */
  type DeckDraws = picks: seq<nat> | ValidPicks(picks, 52) witness seq(51, k => 0)

  /** Exchange the elements at positions i and j. */
  function Swap<T>(s: seq<T>, i: nat, j: nat): (r: seq<T>)
    requires i < |s| && j < |s|
    ensures |r| == |s|
  {
    s[i := s[j]][j := s[i]]
  }

  /** A swap keeps the same cards. */
  lemma SwapKeepsCards<T>(s: seq<T>, i: nat, j: nat)
    requires i < |s| && j < |s|
    ensures multiset(Swap(s, i, j)) == multiset(s)
  {
  }

  /** The remaining Fisher-Yates steps for positions i, i-1, ..., 1; the
      step at position i swaps it with choice number |s| - 1 - i. */
  function ShuffleFrom<T>(s: seq<T>, picks: seq<nat>, i: int): (r: seq<T>)
    requires i < |s| && ValidPicks(picks, |s|)
    ensures |r| == |s|
    decreases i
  {
    if i <= 0 then s
    else ShuffleFrom(Swap(s, i, picks[|s| - 1 - i]), picks, i - 1)
  }

  /** The loop works downwards and each step only touches its own position
      and a lower one, so positions above `i` are already final. */
  lemma {:induction false} ShuffleFixesAbove<T>(s: seq<T>, picks: seq<nat>, i: int)
    requires i < |s| && ValidPicks(picks, |s|)
    ensures forall k :: 0 <= k < |s| && k > i ==> ShuffleFrom(s, picks, i)[k] == s[k]
    decreases i
  {
    if i > 0 {
      var t := Swap(s, i, picks[|s| - 1 - i]);
      assert forall k :: 0 <= k < |s| && k > i ==> t[k] == s[k];
      ShuffleFixesAbove(t, picks, i - 1);
    }
  }

  /** The full shuffle, from the last position down to position 1. */
  function Shuffle<T>(s: seq<T>, picks: seq<nat>): (r: seq<T>)
    requires ValidPicks(picks, |s|)
    ensures |r| == |s|
  {
    ShuffleFrom(s, picks, |s| - 1)
  }

  /** The in-place shuffle loop over an array. Whatever the choices, the
      result has the same cards, and it is the reference shuffle. */
  method ShuffleDeck<T>(deck: seq<T>, picks: seq<nat>) returns (r: seq<T>)
    requires ValidPicks(picks, |deck|)
    ensures |r| == |deck| && multiset(r) == multiset(deck)
    ensures r == Shuffle(deck, picks)
  {
    var a := new T[|deck|](k requires 0 <= k < |deck| => deck[k]);
    var i := |deck| - 1;
    assert a[..] == deck;
    while i > 0
      invariant -1 <= i < |deck| && a.Length == |deck|
      invariant multiset(a[..]) == multiset(deck)
      invariant ShuffleFrom(a[..], picks, i) == Shuffle(deck, picks)
      decreases i
    {
      var j := picks[|deck| - 1 - i];
      ghost var before, k := a[..], i;
      a[i], a[j] := a[j], a[i];
      assert a[..] == Swap(before, k, j);
      SwapKeepsCards(before, k, j);
      i := i - 1;
      ShuffleStep(before, picks, k, j, a[..], i);
    }
    ShuffleDone(a[..], picks, i);
    ShuffleKeepsCards(deck, picks, |deck| - 1);
    r := a[..];
  }

  /** One step of the reference shuffle: position `i` swapped with its
      choice `j` gives `t`, which is left with the steps from i - 1 down. */
  lemma ShuffleStep<T>(s: seq<T>, picks: seq<nat>, i: int, j: nat, t: seq<T>, k: int)
    requires 0 < i < |s| && k == i - 1 && ValidPicks(picks, |s|)
    requires j == picks[|s| - 1 - i] && j < |s| && t == Swap(s, i, j)
    ensures ShuffleFrom(t, picks, k) == ShuffleFrom(s, picks, i)
  {
    assert ShuffleFrom(s, picks, i) == ShuffleFrom(Swap(s, i, picks[|s| - 1 - i]), picks, i - 1);
  }

  /** With no position above 0 left, the shuffle is done. */
  lemma ShuffleDone<T>(s: seq<T>, picks: seq<nat>, i: int)
    requires i <= 0 && i < |s| && ValidPicks(picks, |s|)
    ensures ShuffleFrom(s, picks, i) == s
  {
  }

  /** Whatever the choices, the shuffle keeps the same cards. */
  lemma {:induction false} ShuffleKeepsCards<T>(s: seq<T>, picks: seq<nat>, i: int)
    requires i < |s| && ValidPicks(picks, |s|)
    ensures multiset(ShuffleFrom(s, picks, i)) == multiset(s)
    decreases i
  {
    if i > 0 {
      var j := picks[|s| - 1 - i];
      SwapKeepsCards(s, i, j);
      ShuffleKeepsCards(Swap(s, i, j), picks, i - 1);
    }
  }

  /** A swap does not create duplicates. */
  lemma SwapKeepsDistinct<T>(s: seq<T>, i: nat, j: nat)
    requires i < |s| && j < |s| && Distinct(s)
    ensures Distinct(Swap(s, i, j))
  {
  }

  /** Shuffling a duplicate-free deck gives a duplicate-free deck. */
  lemma {:induction false} ShuffleKeepsDistinct<T>(s: seq<T>, picks: seq<nat>, i: int)
    requires i < |s| && ValidPicks(picks, |s|) && Distinct(s)
    ensures Distinct(ShuffleFrom(s, picks, i))
    decreases i
  {
    if i > 0 {
      var j := picks[|s| - 1 - i];
      SwapKeepsDistinct(s, i, j);
      ShuffleKeepsDistinct(Swap(s, i, j), picks, i - 1);
    }
  }

  /** The two hands of a round. */
  datatype Deal = Deal(player: Hand, dealer: Hand)

  /** Three `pop()`s: the last card of the deck first. */
  function PopHand(d: seq<Card>): (r: (Hand, seq<Card>))
    requires |d| >= 3
    ensures r.1 + [r.0.third, r.0.second, r.0.first] == d
  {
    var n := |d|;
    (Hand(d[n - 1], d[n - 2], d[n - 3]), d[..n - 3])
  }

  /** Shuffle a fresh deck with the swap choices `picks` and pop the
      player's hand, then the dealer's. The source's call draws its choices
      from `Math.random`: that is `DealHands(Draws(random, 52))`. The six
      cards are distinct and are the last six of the shuffled deck. */
  function DealHands(picks: DeckDraws): (r: Deal)
    ensures Distinct(r.player.Cards() + r.dealer.Cards())
    ensures var d := Shuffle(CreateDeck(), picks);
      r.player.Cards() + r.dealer.Cards() == [d[51], d[50], d[49], d[48], d[47], d[46]]
  {
    var d := Shuffle(CreateDeck(), picks);
    var (player, rest) := PopHand(d);
    var (dealer, _) := PopHand(rest);
    CreateDeckExactlyOnce();
    ShuffleKeepsDistinct(CreateDeck(), picks, 51);
    TopSixDistinct(d);
    assert player == Hand(d[51], d[50], d[49]);
    assert rest == d[..49];
    assert dealer == Hand(d[48], d[47], d[46]);
    SixCards(player, dealer);
    Deal(player, dealer)
  }

  /** The six dealt cards are six cards of one fresh deck: no card is
      dealt more often than the deck holds it. */
  lemma DealtFromOneDeck(picks: DeckDraws)
    ensures var r := DealHands(picks);
      multiset(r.player.Cards() + r.dealer.Cards()) <= multiset(CreateDeck())
  {
    var r := DealHands(picks);
    DrawnFromDeck(r.player.Cards() + r.dealer.Cards());
  }

  lemma SixCards(a: Hand, b: Hand)
    ensures a.Cards() + b.Cards() == [a.first, a.second, a.third, b.first, b.second, b.third]
  {
  }

  /** Six different positions of a duplicate-free deck hold six different
      cards. */
  lemma TopSixDistinct(d: seq<Card>)
    requires |d| == 52 && Distinct(d)
    ensures Distinct([d[51], d[50], d[49], d[48], d[47], d[46]])
  {
    var six := [d[51], d[50], d[49], d[48], d[47], d[46]];
    forall i, j | 0 <= i < j < 6 ensures six[i] != six[j] {
      assert six[i] == d[51 - i] && six[j] == d[51 - j];
    }
  }

  /** Distinct cards can all be taken from one fresh deck. */
  lemma DrawnFromDeck(cards: seq<Card>)
    requires Distinct(cards)
    ensures multiset(cards) <= multiset(CreateDeck())
  {
    CreateDeckExactlyOnce();
    DistinctCounts(cards);
  }
}
