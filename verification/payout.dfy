/** The ante bonus and the amount credited back when a played hand is
    settled. All amounts are whole chips. */
module Payout {
  import opened Types
  import opened Constants
  import opened Evaluation
  import opened Showdown

  /** The ante-bonus multiplier of a category; a category without an entry
      in the pay table pays nothing. */
  function BonusMultiplier(r: HandRank): (m: nat)
    ensures m > 0 <==> Ordinal(r) >= Ordinal(Straight)
    ensures m <= 5
  {
    if r in AnteBonusPayout then AnteBonusPayout[r] else 0
  }

  /** The multiplier of every category, and that it never decreases as the
      category gets stronger. */
  lemma BonusMultiplierTable(a: HandRank, b: HandRank)
    ensures BonusMultiplier(StraightFlush) == 5
    ensures BonusMultiplier(ThreeOfAKind) == 4
    ensures BonusMultiplier(Straight) == 1
    ensures BonusMultiplier(Flush) == 0 && BonusMultiplier(Pair) == 0 && BonusMultiplier(HighCard) == 0
    ensures Ordinal(a) <= Ordinal(b) ==> BonusMultiplier(a) <= BonusMultiplier(b)
  {
  }

  /** The ante bonus the player's hand earns on an ante of `ante` chips. */
  function CalculateAnteBonus(h: Hand, ante: nat): (bonus: nat)
    ensures bonus > 0 <==> ante > 0 && (InSequence(h) || AllSameRank(h))
    ensures bonus <= 5 * ante
  {
    EvaluateHandCategory(h);
    BonusMultiplier(EvaluateHand(h).rank) * ante
  }

  /** The bonus described on the dealt cards: five times the ante for
      three suited cards in sequence, four times for three of a rank, the
      ante itself for an unsuited sequence, nothing otherwise. */
  lemma AnteBonusOnCards(h: Hand, ante: nat)
    ensures CalculateAnteBonus(h, ante) ==
      if InSequence(h) && IsFlush(h) then 5 * ante
      else if AllSameRank(h) then 4 * ante
      else if InSequence(h) then ante
      else 0
  {
    EvaluateHandCategory(h);
  }

  /** The amount credited when a played hand is settled. Both wagers
      (ante and play, each `ante` chips) were already taken from the
      balance, so the credit includes the returned stakes. */
  function CalculatePayout(ante: nat, h: Hand, o: Outcome): (payout: nat)
    ensures payout >= CalculateAnteBonus(h, ante)
    ensures payout <= 4 * ante + CalculateAnteBonus(h, ante)
    ensures o.result == DealerWins ==> payout == CalculateAnteBonus(h, ante)
  {
    var bonus := CalculateAnteBonus(h, ante);
    if o.result == DealerWins then bonus
    else if o.result == Push then ante * 2 + bonus
    else if !o.dealerQualified then ante * 3 + bonus
    else ante * 4 + bonus
  }

  /** How a single wager is settled: lost, returned, or paid even money. */
  datatype Settlement = Lost | Returned | PaidEven

  /** What a settled wager of `stake` chips gives back. */
  function Return(s: Settlement, stake: nat): (r: nat)
    ensures s == Lost ==> r == 0
    ensures s != Lost ==> stake <= r <= 2 * stake
  {
    match s
    case Lost => 0
    case Returned => stake
    case PaidEven => 2 * stake
  }

  /** The posted rules, per wager: the ante pays even money on any win;
      the play wager pays even money when the dealer qualified and is
      returned when it did not; a loss loses both and a tie returns both. */
  function AnteSettlement(o: Outcome): Settlement
  {
    match o.result
    case PlayerWins => PaidEven
    case DealerWins => Lost
    case Push => Returned
  }

  function PlaySettlement(o: Outcome): Settlement
  {
    match o.result
    case PlayerWins => if o.dealerQualified then PaidEven else Returned
    case DealerWins => Lost
    case Push => Returned
  }

  /** The credit table agrees with settling each wager by the posted rules
      and adding the ante bonus. */
  lemma PayoutIsSumOfWagers(ante: nat, h: Hand, o: Outcome)
    ensures CalculatePayout(ante, h, o)
        == Return(AnteSettlement(o), ante) + Return(PlaySettlement(o), ante) + CalculateAnteBonus(h, ante)
  {
  }

  /** The net gain of a played hand over the two stakes: two antes for a
      win against a qualifying dealer, one ante against a dealer who does
      not qualify, nothing for a tie, minus both stakes for a loss; the
      bonus is added in every case. */
  lemma PayoutNet(ante: nat, h: Hand, o: Outcome)
    ensures var net := CalculatePayout(ante, h, o) - 2 * ante - CalculateAnteBonus(h, ante);
      && (o.result == PlayerWins && o.dealerQualified ==> net == 2 * ante)
      && (o.result == PlayerWins && !o.dealerQualified ==> net == ante)
      && (o.result == Push ==> net == 0)
      && (o.result == DealerWins ==> net == -2 * ante)
  {
    PayoutIsSumOfWagers(ante, h, o);
  }
}
