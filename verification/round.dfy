/** The round handlers of the game screen as a state machine over the
    phase, the balance, the ante and the two hands. Each handler is one
    synchronous step; the animations and timers that separate the source's
    updates are collapsed, and the steps they gate become actions. */
module Round {
  import opened Types
  import opened Constants
  import opened Deck
  import opened Evaluation
  import opened Showdown
  import opened Payout

  /** The status line, reduced to the signals the round logic gives:
      a bet the balance cannot cover, and the end of the game. */
  datatype Notice = Quiet | NotEnoughBalance | GameOver

  /** The state the round handlers read and write. */
  datatype Table = Table(
    phase: GameState,
    balance: int,
    ante: nat,
    player: Option<Hand>,
    dealer: Option<Hand>,
    notice: Notice)

  /** The table once the player has entered a name: the starting balance,
      the minimum ante, no hands. */
  function Opening(): (t: Table)
    ensures Inv(t) && t.phase == Betting && t.player.None? && t.dealer.None?
  {
    Table(Betting, StartingBalance, MinBet, None, None, Quiet)
  }

  /** The values the ante slider can take: multiples of 5 above the
      minimum, up to the maximum bet or the balance, whichever is lower. */
  predicate SliderAllows(x: int, balance: int): (b: bool)
    ensures b ==> MinBet <= x <= MaxBet && x <= balance
    ensures b ==> x % 5 == 0
  {
    MinBet <= x <= MaxBet && x <= balance && (x - MinBet) % 5 == 0
  }

  /** Deal: refuse when the balance cannot cover the ante; otherwise take
      the ante and deal fresh hands from a new shuffled deck. */
  function HandleDeal(s: Table, draws: DeckDraws): (t: Table)
    ensures s.balance < s.ante ==> t.balance == s.balance && t.phase == s.phase
    ensures s.balance < s.ante ==> t.notice == NotEnoughBalance
    ensures s.balance >= s.ante ==>
      && t.balance == s.balance - s.ante && t.phase == Dealing
      && t.player.Some? && t.dealer.Some?
      && Distinct(t.player.value.Cards() + t.dealer.value.Cards())
    ensures t.ante == s.ante
  {
    if s.balance < s.ante then s.(notice := NotEnoughBalance)
    else
      var deal := DealHands(draws);
      s.(balance := s.balance - s.ante, phase := Dealing,
         player := Some(deal.player), dealer := Some(deal.dealer), notice := Quiet)
  }

  /** The deal animation finished: the player may now act. */
  function CardsDealt(s: Table): (t: Table)
    ensures t.phase == PlayerTurn
    ensures t.balance == s.balance && t.player == s.player && t.dealer == s.dealer
  {
    s.(phase := PlayerTurn)
  }

  /** Fold: the ante is forfeit (already taken), the ante bonus is still
      paid, and the round ends. */
  function HandleFold(s: Table): (t: Table)
    ensures t.phase == Payout
    ensures t.balance >= s.balance
    ensures s.player.None? ==> t.balance == s.balance
    ensures s.player.Some? ==> t.balance == s.balance + CalculateAnteBonus(s.player.value, s.ante)
    ensures t.ante == s.ante && t.player == s.player && t.dealer == s.dealer
  {
    var bonus := if s.player.Some? then CalculateAnteBonus(s.player.value, s.ante) else 0;
    s.(phase := Payout, balance := s.balance + bonus, notice := Quiet)
  }

  /** Play: refuse when the balance cannot cover the play wager; do nothing
      without a dealer hand; otherwise take the play wager, reveal, and
      credit the settlement. */
  function HandlePlay(s: Table): (t: Table)
    ensures s.balance < s.ante ==> t.balance == s.balance && t.phase == s.phase
    ensures s.balance < s.ante ==> t.notice == NotEnoughBalance
    ensures s.balance >= s.ante && s.dealer.None? ==> t == s
    ensures s.balance >= s.ante && s.dealer.Some? ==> t.phase == Reveal
    ensures s.balance >= s.ante && s.dealer.Some? && s.player.None? ==> t.balance == s.balance - s.ante
    ensures s.balance >= s.ante && s.dealer.Some? && s.player.Some? ==>
      var p, d := s.player.value, s.dealer.value;
      t.balance == s.balance - s.ante + CalculatePayout(s.ante, p, DetermineWinner(p, d))
    ensures t.ante == s.ante && t.player == s.player && t.dealer == s.dealer
  {
    if s.balance < s.ante then s.(notice := NotEnoughBalance)
    else if s.dealer.None? then s
    else
      var revealed := s.(balance := s.balance - s.ante, phase := Reveal, notice := Quiet);
      if s.player.None? then revealed
      else
        var p, d := s.player.value, s.dealer.value;
        revealed.(balance := revealed.balance + CalculatePayout(s.ante, p, DetermineWinner(p, d)))
  }

  /** Back to betting with the hands cleared, announcing the end of the
      game when the balance no longer covers the minimum bet. */
  function StartNewRound(s: Table): (t: Table)
    ensures t.phase == Betting && t.player.None? && t.dealer.None?
    ensures t.notice == GameOver <==> s.balance < MinBet
    ensures t.balance == s.balance && t.ante == s.ante
  {
    s.(phase := Betting, player := None, dealer := None,
       notice := if s.balance < MinBet then GameOver else Quiet)
  }

  /** What can happen at the table: the player moves the slider, presses
      one of the buttons, or an animation or timer completes. */
  datatype Action =
    | SetAnte(amount: int)
    | DealCards(draws: DeckDraws)
    | DealDone
    | Play
    | Fold
    | NextRound

  /** The controls are only on screen in their phase: the slider and the
      Deal button while betting with at least the minimum bet, Play and
      Fold on the player's turn. A timer or animation step fires only in
      the phase that scheduled it. Anything else leaves the table alone. */
  function Step(s: Table, a: Action): (t: Table)
    ensures s.phase == Betting && s.balance < MinBet ==> t == s
    ensures a.SetAnte? && s.phase != Betting ==> t == s
    ensures a.DealCards? && s.phase != Betting ==> t == s
    ensures (a.Play? || a.Fold?) && s.phase != PlayerTurn ==> t == s
    ensures a.DealDone? && s.phase != Dealing ==> t == s
    ensures a.NextRound? && s.phase != Payout && s.phase != Reveal ==> t == s
  {
    match a
    case SetAnte(x) =>
      if s.phase == Betting && s.balance >= MinBet && SliderAllows(x, s.balance) then s.(ante := x) else s
    case DealCards(draws) =>
      if s.phase == Betting && s.balance >= MinBet then HandleDeal(s, draws) else s
    case DealDone =>
      if s.phase == Dealing then CardsDealt(s) else s
    case Play =>
      if s.phase == PlayerTurn then HandlePlay(s) else s
    case Fold =>
      if s.phase == PlayerTurn then HandleFold(s) else s
    case NextRound =>
      if s.phase == Payout || s.phase == Reveal then StartNewRound(s) else s
  }

  /** Only the slider changes the ante, only while betting is offered,
      and only to a value between the minimum bet and the smaller of the
      maximum bet and the balance. */
  lemma AnteOnlyFromSlider(s: Table, a: Action)
    ensures Step(s, a).ante != s.ante ==>
      && a.SetAnte? && s.phase == Betting && s.balance >= MinBet
      && MinBet <= a.amount <= MaxBet && a.amount <= s.balance
  {
  }

  /** What every reachable table satisfies: the balance is never negative,
      the ante lies within the table limits, and both hands are on the
      table from the deal until the round ends. */
  predicate Inv(s: Table)
  {
    && s.balance >= 0
    && MinBet <= s.ante <= MaxBet
    && s.phase != Loading && s.phase != Naming
    && (s.phase == Dealing || s.phase == PlayerTurn || s.phase == Reveal ==>
          s.player.Some? && s.dealer.Some?)
  }

  /** Every step keeps the invariant: each debit is guarded by the balance
      and each credit is non-negative. */
  lemma StepKeepsInv(s: Table, a: Action)
    requires Inv(s)
    ensures Inv(Step(s, a))
  {
    match a
    case Play =>
      if s.phase == PlayerTurn && s.balance >= s.ante {
        var p, d := s.player.value, s.dealer.value;
        assert CalculatePayout(s.ante, p, DetermineWinner(p, d)) >= 0;
      }
    case _ =>
  }

  /** The table after a sequence of actions. */
  function Run(s: Table, actions: seq<Action>): Table
    decreases |actions|
  {
    if |actions| == 0 then s else Run(Step(s, actions[0]), actions[1..])
  }

  /** A run of any length keeps the invariant. */
  lemma {:induction false} RunKeepsInv(s: Table, actions: seq<Action>)
    requires Inv(s)
    ensures Inv(Run(s, actions))
    decreases |actions|
  {
    if |actions| > 0 {
      StepKeepsInv(s, actions[0]);
      RunKeepsInv(Step(s, actions[0]), actions[1..]);
    }
  }

  /** Every table reachable from the opening one has a non-negative
      balance and an ante within the limits. */
  lemma ReachableBalanceNonNegative(actions: seq<Action>)
    ensures Run(Opening(), actions).balance >= 0
    ensures MinBet <= Run(Opening(), actions).ante <= MaxBet
  {
    RunKeepsInv(Opening(), actions);
  }

  /** Dealing from the betting phase and finishing the deal animation
      takes the ante and leaves the player to act on fresh hands. */
  lemma DealtTable(s: Table, draws: DeckDraws)
    requires Inv(s) && s.phase == Betting && s.balance >= MinBet && s.balance >= s.ante
    ensures var deal := DealHands(draws);
      Step(Step(s, DealCards(draws)), DealDone)
        == s.(balance := s.balance - s.ante, phase := PlayerTurn,
              player := Some(deal.player), dealer := Some(deal.dealer), notice := Quiet)
  {
    var dealt := Step(s, DealCards(draws));
    assert dealt == HandleDeal(s, draws);
  }

  /** A played round from the betting phase: the ante and the play wager
      are both taken, the settlement is credited, and the next round
      starts back at betting. Over the round the balance moves by the
      settlement minus two antes. */
  lemma PlayedRoundNet(s: Table, draws: DeckDraws)
    requires Inv(s) && s.phase == Betting && s.balance >= MinBet && s.balance >= 2 * s.ante
    ensures var deal := DealHands(draws);
      var played := Step(Step(Step(s, DealCards(draws)), DealDone), Play);
      && played.phase == Reveal
      && played.balance == s.balance - 2 * s.ante
           + CalculatePayout(s.ante, deal.player, DetermineWinner(deal.player, deal.dealer))
      && Step(played, NextRound).phase == Betting
  {
    DealtTable(s, draws);
  }

  /** A folded round from the betting phase: only the ante is taken, the
      ante bonus is credited whatever the dealer holds, and the next round
      starts back at betting. */
  lemma FoldedRoundNet(s: Table, draws: DeckDraws)
    requires Inv(s) && s.phase == Betting && s.balance >= MinBet && s.balance >= s.ante
    ensures var deal := DealHands(draws);
      var folded := Step(Step(Step(s, DealCards(draws)), DealDone), Fold);
      && folded.phase == Payout
      && folded.balance == s.balance - s.ante + CalculateAnteBonus(deal.player, s.ante)
      && Step(folded, NextRound).phase == Betting
  {
    DealtTable(s, draws);
  }

  /** Folding never looks at the dealer's hand. */
  lemma FoldIgnoresDealer(s: Table, other: Option<Hand>)
    ensures HandleFold(s.(dealer := other)) == HandleFold(s).(dealer := other)
  {
  }

  /** Once the balance is below the minimum bet at the betting phase, no
      action changes the table: the game is over. */
  lemma {:induction false} GameOverIsFinal(s: Table, actions: seq<Action>)
    requires s.phase == Betting && s.balance < MinBet
    ensures Run(s, actions) == s
    decreases |actions|
  {
    if |actions| > 0 {
      GameOverIsFinal(Step(s, actions[0]), actions[1..]);
    }
  }

  /** The player's turn of a round at a ten-chip ante, dealt from the
      starting balance of 1000 and so at 990 after the ante, with a hand
      that earns no bonus against a dealer who does not qualify (Jack
      high): playing ends at 1010, folding at 990. */
  lemma ExampleRounds()
    ensures var player := Some(Hand(Card(Clubs, Two), Card(Diamonds, Five), Card(Hearts, Nine)));
      var dealer := Some(Hand(Card(Clubs, Three), Card(Diamonds, Seven), Card(Hearts, Jack)));
      var turn := Table(PlayerTurn, 990, 10, player, dealer, Quiet);
      && Step(turn, Play).balance == 1010
      && Step(turn, Fold).balance == 990
  {
    var ph := Hand(Card(Clubs, Two), Card(Diamonds, Five), Card(Hearts, Nine));
    var dh := Hand(Card(Clubs, Three), Card(Diamonds, Seven), Card(Hearts, Jack));
    ExampleSettlement(Table(PlayerTurn, 990, 10, Some(ph), Some(dh), Quiet));
  }

  /** The handlers on the example's table: the player's hand earns no
      bonus and wins against a dealer who does not qualify. */
  lemma ExampleSettlement(turn: Table)
    requires turn.phase == PlayerTurn && turn.balance == 990 && turn.ante == 10
    requires turn.player == Some(Hand(Card(Clubs, Two), Card(Diamonds, Five), Card(Hearts, Nine)))
    requires turn.dealer == Some(Hand(Card(Clubs, Three), Card(Diamonds, Seven), Card(Hearts, Jack)))
    ensures Step(turn, Play).balance == 1010
    ensures Step(turn, Fold).balance == 990
  {
    var ph, dh := turn.player.value, turn.dealer.value;
    assert CardValues(ph) == [7, 3, 0];
    assert CardValues(dh) == [9, 5, 1];
    assert EvaluateHand(ph).rank == HighCard;
    assert EvaluateHand(dh) == HandEvaluation(HighCard, HandName(HighCard), [9, 5, 1]);
    assert CalculateAnteBonus(ph, 10) == 0;
    assert DetermineWinner(ph, dh) == Outcome(PlayerWins, false);
    assert Step(turn, Play) == HandlePlay(turn);
    assert Step(turn, Fold) == HandleFold(turn);
  }
}
