# Three-Card Poker: a Dafny model of the rules engine and the round

This project models the rules engine of a single-player Three-Card Poker
table and the balance and phase logic of its game screen:

- **Deck.** A fresh 52-card deck is built suit by suit. It is shuffled with
  Fisher–Yates, and the player's hand and then the dealer's hand are popped
  from the end.
- **Evaluation.** A three-card hand is classified as Straight Flush, Three of
  a Kind, Straight, Flush, Pair or High Card, checked in that order. Each
  result carries tie-break values: for a Pair, the paired value and then
  the kicker; for every other category, the three rank indices sorted from
  highest to lowest.
- **Showdown.** Two evaluations are compared by category and then
  lexicographically. The dealer qualifies with any category above High
  Card, or with Queen high or better. When the dealer does not qualify, the
  player wins.
- **Payout.** The ante bonus (5×, 4× and 1× the ante for Straight Flush,
  Three of a Kind and Straight) and the credit paid when a played hand is
  settled.
- **Round.** A state machine over phase, balance, ante and the two hands,
  driven by the Deal, Fold and Play handlers, the deal animation and the
  new-round timer.

Modules follow the source files:

- `Types` covers `types.ts`.
- `Constants` covers `constants.ts`.
- `Deck`, `Evaluation`, `Showdown` and `Payout` cover
  `services/pokerService.ts`.
- `Round` covers the handlers in `App.tsx`.

Each source operation is a pure function, except the shuffle. The shuffle
is also an array method whose loop is proved equal to the functional
definition and to keep the multiset of cards.

Inputs the program reads from outside are parameters:

- **`Math.random`** is a stream `random: nat -> Roll` of reals in [0, 1).
  `Deck.Draws` turns it into the shuffle's swap choices `⌊x·(i+1)⌋`, and
  `Deck.EveryChoiceDrawable` shows every valid sequence of choices comes
  from some stream. So the deal and the round take the swap choices
  (`DeckDraws`) directly, and their properties hold for every shuffle.
- **The module-level `deck` variable** is replaced by a deck built fresh in
  every deal, which is what the source does on each call.
- **Animations and timers** become actions of the state machine: `DealDone`
  is the end of the deal animation, and `NextRound` is the timer that calls
  `startNewRound`.

Two behaviours of the code that differ from what a reader of the rules
might expect; the model follows the code:

- **A-2-3.** In the usual Three-Card Poker rules A-2-3 is the lowest
  straight. Here its tie-break values stay `[12, 1, 0]`, with the Ace still
  counted high. Against another straight it therefore beats K-Q-J and loses
  only to A-K-Q, and as a straight flush it is not the weakest.
  `Showdown.AceLowStraightRanksHigh` states this behaviour.
- **Play.** After Play the screen goes to the reveal phase and stays there
  until the new-round timer fires. The payout phase is only entered by
  Fold.

## Model

| member | source | states |
|---|---|---|
| Types.Ordinal | gemini-poker-1/types.ts:31-38 | the categories take the enum values 0..5 in declared order (Flush below Straight), and the value determines the category |
| Constants.HandName | gemini-poker-1/constants.ts:10-17 | every category has a non-empty display name |
| Constants.HandNamesDistinct | gemini-poker-1/constants.ts:10-17 | different categories have different names |
| Constants.IndexOf | gemini-poker-1/services/pokerService.ts:38 | array `indexOf`: -1 exactly when the element is absent, otherwise the first position holding it |
| Constants.RankIndex | gemini-poker-1/constants.ts:3-6 | a rank's value is a position in 0..12 of the rank order that holds that rank |
| Constants.RankIndexIsIndexOf | gemini-poker-1/services/pokerService.ts:38 | the value table agrees with `indexOf` over the rank order for every rank |
| Constants.RankOrderComplete | gemini-poker-1/constants.ts:3-6 | the rank order lists 13 distinct ranks and contains every rank |
| Constants.RankIndexBijective | gemini-poker-1/constants.ts:3-6 | rank values are injective and onto 0..12, with Two = 0, Queen = 10, Ace = 12 |
| Constants.SuitsComplete | gemini-poker-1/constants.ts:8 | the suit list holds 4 distinct suits and contains every suit |
| Constants.LimitsOrdered | gemini-poker-1/constants.ts:40-42 | 0 < minimum bet ≤ maximum bet ≤ starting balance |
| Deck.CreateDeck | gemini-poker-1/services/pokerService.ts:7-15 | the deck has as many cards as there are suits times ranks |
| Deck.CreateDeckOrder | gemini-poker-1/services/pokerService.ts:7-15 | suits form the outer loop and ranks the inner one: the card of the s-th suit and r-th rank is at position 13·s + r |
| Deck.CreateDeckExactlyOnce | gemini-poker-1/services/pokerService.ts:7-15 | the deck has 52 cards, every card occurs exactly once, and no two positions hold the same card |
| Deck.DrawIndex | gemini-poker-1/services/pokerService.ts:19 | the drawn position j is the floor of x·(i+1), j ≤ x·(i+1) < j+1, and lies in 0..i |
| Deck.EveryIndexDrawable | gemini-poker-1/services/pokerService.ts:19 | every position in 0..i is drawn by some roll |
| Deck.Draws | gemini-poker-1/services/pokerService.ts:17-22 | the choices the loop draws from any random stream are valid: the choice for position i lies in 0..i |
| Deck.EveryChoiceDrawable | gemini-poker-1/services/pokerService.ts:17-22 | every valid sequence of swap choices is drawn by some random stream |
| Deck.ShuffleFrom | gemini-poker-1/services/pokerService.ts:17-22 | the loop from position i down to 1, each step swapping position i with the chosen position, keeps the length; its permutation and fixed-position facts are `Deck.ShuffleKeepsCards` and `Deck.ShuffleFixesAbove` |
| Deck.ShuffleFixesAbove | gemini-poker-1/services/pokerService.ts:18-21 | positions above the loop's current index are never touched again: they are final |
| Deck.Shuffle | gemini-poker-1/services/pokerService.ts:17-22 | the whole shuffle, from the last position down to 1, keeps the length; `Deck.ShuffleDeck` proves the array loop computes it and `Deck.ShuffleKeepsCards` that it is a permutation |
| Deck.SwapKeepsCards | gemini-poker-1/services/pokerService.ts:20 | exchanging two positions keeps the multiset of elements |
| Deck.ShuffleDeck | gemini-poker-1/services/pokerService.ts:17-22 | the in-place Fisher–Yates loop keeps the length and the multiset of cards and computes the functional shuffle |
| Deck.ShuffleKeepsCards | gemini-poker-1/services/pokerService.ts:17-22 | for every valid choice of swap positions the shuffle is a permutation of its input |
| Deck.ShuffleKeepsDistinct | gemini-poker-1/services/pokerService.ts:17-22 | shuffling a duplicate-free deck leaves it duplicate-free |
| Deck.PopHand | gemini-poker-1/services/pokerService.ts:32-33 | three pops take the last three cards, last card first, and leave the rest of the deck in order |
| Deck.DealHands | gemini-poker-1/services/pokerService.ts:24-35 | the player's hand is the last three cards of the shuffled fresh deck, last first, the dealer's the three before, and the six cards are pairwise distinct |
| Deck.DealtFromOneDeck | gemini-poker-1/services/pokerService.ts:30-35 | the six dealt cards are a sub-multiset of one fresh deck |
| Evaluation.SortDescending | gemini-poker-1/services/pokerService.ts:38 | the sort gives its three inputs in some order, non-increasing |
| Evaluation.CardValues | gemini-poker-1/services/pokerService.ts:37-39 | three values in 0..12, non-increasing, which are the three cards' rank values in some order |
| Evaluation.FindOther | gemini-poker-1/services/pokerService.ts:74 | array `find` for a value other than x: absent exactly when every element equals x, otherwise the value at some position that differs from x with x at every position before it, i.e. the first such element |
| Evaluation.FlushIsEverySuit | gemini-poker-1/services/pokerService.ts:43 | the flush test holds exactly when every card of the hand has the first card's suit |
| Evaluation.IsStraight | gemini-poker-1/services/pokerService.ts:45-49 | the straight test on sorted values only holds for three different values; `Evaluation.StraightMeansInSequence` characterises it on the cards |
| Evaluation.EvaluateHand | gemini-poker-1/services/pokerService.ts:41-79 | the name is the category's name, and the values are in 0..12. A Pair carries [paired value, kicker], two different values that with the paired value repeated are the hand's values; every other category carries the three sorted values |
| Evaluation.StraightMeansInSequence | gemini-poker-1/services/pokerService.ts:45-49 | the straight test on sorted values holds exactly when the three ranks are different and consecutive, or are Ace, Two and Three |
| Evaluation.AceLowValues | gemini-poker-1/services/pokerService.ts:46-47 | the hand holds exactly Ace, Two and Three iff its values are 12, 1, 0 in some order |
| Evaluation.EvaluateHandCategory | gemini-poker-1/services/pokerService.ts:41-79 | each category is characterised on the dealt cards as "its own shape and none of the stronger shapes", both directions, following the precedence of the checks |
| Showdown.CompareFrom | gemini-poker-1/services/pokerService.ts:86-91 | the tie-break loop answers -1, 0 or 1, and 0 once past the player's values |
| Showdown.CompareHands | gemini-poker-1/services/pokerService.ts:81-92 | the answer is -1, 0 or 1, and a stronger category always wins |
| Showdown.CompareAtFirstDifference | gemini-poker-1/services/pokerService.ts:86-91 | the loop answers with the sign of the first position where both lists differ (lexicographic order) |
| Showdown.CompareTieMeansAgree | gemini-poker-1/services/pokerService.ts:86-91 | the loop reports a tie exactly when the lists agree on every shared position |
| Showdown.CompareFromAntisymmetric | gemini-poker-1/services/pokerService.ts:86-91 | exchanging the lists negates the answer, whatever their lengths |
| Showdown.CompareHandsAntisymmetric | gemini-poker-1/services/pokerService.ts:81-92 | compare(a, b) = -compare(b, a) and compare(a, a) = 0 for all evaluations |
| Showdown.CompareHandsLexicographic | gemini-poker-1/services/pokerService.ts:81-92 | hands of one category are decided by the first differing tie-break value |
| Showdown.DealerQualifies | gemini-poker-1/services/pokerService.ts:98 | the dealer qualifies exactly with a category other than High Card, or with a top value of 10 (the Queen's index) or more |
| Showdown.DetermineWinner | gemini-poker-1/services/pokerService.ts:94-113 | the qualification flag is the dealer rule; a dealer who does not qualify loses whatever the player holds; otherwise player win, dealer win and push follow the sign of the comparison |
| Showdown.DealerQualifiesOnCards | gemini-poker-1/services/pokerService.ts:98 | the dealer qualifies iff the hand has a paired rank, one suit, ranks in sequence, or a Queen or better |
| Showdown.DetermineWinnerSwap | gemini-poker-1/services/pokerService.ts:100-112 | with both hands qualifying, exchanging them exchanges player and dealer wins and keeps a push |
| Showdown.AceLowStraightRanksHigh | gemini-poker-1/services/pokerService.ts:45-49 | A-2-3 is a straight that beats K-Q-J and loses to A-K-Q |
| Payout.BonusMultiplier | gemini-poker-1/services/pokerService.ts:117 | the multiplier is at most 5 and is positive exactly for Straight and stronger |
| Payout.BonusMultiplierTable | gemini-poker-1/constants.ts:19-23 | multipliers 5, 4, 1 for Straight Flush, Three of a Kind, Straight, 0 for the categories without an entry, non-decreasing in category order |
| Payout.CalculateAnteBonus | gemini-poker-1/services/pokerService.ts:115-118 | the bonus is at most five antes and is positive iff the ante is and the hand is in sequence or three of a rank |
| Payout.AnteBonusOnCards | gemini-poker-1/services/pokerService.ts:115-118 | the bonus in terms of the dealt cards: 5× for a suited sequence, 4× for three of a rank, 1× for an unsuited sequence, 0 otherwise |
| Payout.CalculatePayout | gemini-poker-1/services/pokerService.ts:121-139 | the credit is between the bonus and four antes plus the bonus, and is exactly the bonus on a loss |
| Payout.Return | gemini-poker-1/App.tsx:339-342 | a lost wager returns nothing; a returned or even-money wager returns between one and two stakes |
| Payout.PayoutIsSumOfWagers | gemini-poker-1/services/pokerService.ts:121-139 | the credit equals the ante wager's return plus the play wager's return under the posted rules, plus the bonus |
| Payout.PayoutNet | gemini-poker-1/services/pokerService.ts:121-139 | net over both stakes: +2 antes for a win against a qualifying dealer, +1 ante against a non-qualifying one, 0 for a push, -2 antes for a loss, plus the bonus |
| Round.Opening | gemini-poker-1/App.tsx:19-22 | the table starts at the betting phase with no hands and satisfies the round invariant (starting balance, minimum ante) |
| Round.SliderAllows | gemini-poker-1/App.tsx:268 | a slider value lies between the minimum bet and the smaller of the maximum bet and the balance, on the step of 5 |
| Round.HandleDeal | gemini-poker-1/App.tsx:80-100 | without funds for the ante, balance and phase are unchanged and the shortfall is signalled; otherwise exactly the ante is taken and two hands of six distinct cards are on the table in the dealing phase |
| Round.CardsDealt | gemini-poker-1/App.tsx:96-99 | the end of the deal animation hands the turn to the player, keeping balance and hands |
| Round.HandleFold | gemini-poker-1/App.tsx:102-118 | folding enters the payout phase and credits exactly the ante bonus of the player's hand (nothing without a hand) |
| Round.HandlePlay | gemini-poker-1/App.tsx:120-168 | without funds nothing is taken and the phase is kept; without a dealer hand nothing changes; otherwise the ante is taken, the reveal phase entered and the settlement credited |
| Round.StartNewRound | gemini-poker-1/App.tsx:170-178 | back to betting with no hands, signalling game over iff the balance is below the minimum bet |
| Round.Step | gemini-poker-1/App.tsx:264-288 | at the betting phase with less than the minimum bet no action changes the table; the slider and Deal do nothing outside betting, Play and Fold nothing outside the player's turn, the deal animation nothing outside dealing, and the new-round timer nothing outside payout and reveal |
| Round.AnteOnlyFromSlider | gemini-poker-1/App.tsx:264-268 | the ante only changes through the slider while betting is offered, to a value in [minimum bet, min(maximum bet, balance)] |
| Round.StepKeepsInv | gemini-poker-1/App.tsx:80-178 | every step keeps the balance non-negative, the ante within limits and both hands present from the deal to the reveal |
| Round.RunKeepsInv | gemini-poker-1/App.tsx:80-178 | every sequence of actions keeps that invariant |
| Round.ReachableBalanceNonNegative | gemini-poker-1/App.tsx:80-178 | from the opening table the balance never goes negative and the ante stays within limits |
| Round.DealtTable | gemini-poker-1/App.tsx:80-100 | a deal from the betting phase followed by the deal animation leaves the player to act, one ante poorer, on the dealt hands |
| Round.PlayedRoundNet | gemini-poker-1/App.tsx:120-168 | a played round changes the balance by the settlement minus two antes and returns to betting |
| Round.FoldedRoundNet | gemini-poker-1/App.tsx:102-118 | a folded round changes the balance by the ante bonus minus one ante and returns to betting |
| Round.FoldIgnoresDealer | gemini-poker-1/App.tsx:102-118 | folding never reads the dealer's hand |
| Round.GameOverIsFinal | gemini-poker-1/App.tsx:170-178 | at the betting phase below the minimum bet no sequence of actions changes the table |
| Round.ExampleRounds | gemini-poker-1/App.tsx:102-168 | at the player's turn with ante 10 and balance 990 (1000 less the ante), a no-bonus hand against a Jack-high dealer ends at 1010 when played and 990 when folded |

## Left out

- Rendering, animation, sounds and the hint service (`game/PixiGame.ts`, `services/soundService.ts`, `services/geminiService.ts`, `handleGetHint`) do not affect the balance or the phase; they are not part of this model.
- Asset loading and the name form (the Loading and Naming phases, `handleNameSubmit`) are not modelled; the model starts at the betting phase with the starting balance and the minimum ante.
- The status-line strings are reduced to the two signals the round logic gives: a bet the balance cannot cover, and game over.
- Round.StartNewRound: reads the balance after the round's settlement. In the source the timer calls the `startNewRound` captured when the Fold or Play handler was created, which reads the balance of that earlier render, before the round's credit. The model treats each handler as one synchronous step.
- Round.HandlePlay: the reveal animation and the settlement are collapsed into one step. The source's branch that finds no player hand after the reveal stays in the reveal phase without a credit and schedules no new round; the model also stays in the reveal phase without a credit, but lets the new-round action fire from there. Under the invariant a player hand is always present.
- Money is whole chips (`int`): antes are whole multiples of 5 and every payout is a whole multiple of the ante, so no fractions arise.
- Deck.DrawIndex: the swap position is the floor of the exact real product x·(i+1); the rounding of `Math.random() * (i + 1)` to a double, which can push the product across an integer on some rolls, is not modelled. Every property of the deal holds for all valid swap choices, so none depends on it.
- `Math.random` is a parameter. The deal and the round take the shuffle's swap choices directly; `Deck.Draws` and `Deck.EveryChoiceDrawable` relate those to random streams.
