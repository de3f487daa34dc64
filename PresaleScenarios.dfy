/** Concrete situations from the ledger's behavioural test suite, stated against
    the deployment configuration: base prices of 0.1 BNB and 30 USDT per token,
    a buyer, a referrer and a token reserve of ten million tokens. */
module PresaleScenarios {
  import opened Base
  import opened PresaleRules
  import opened PresaleProperties
  import opened PresaleLedger

  const BASE_PRICE_BNB: nat := ONE_TOKEN / 10
  const BASE_PRICE_USDT: nat := 30 * ONE_TOKEN
  const BUYER: Address := 1
  const REFERRER: Address := 2
  const RESERVE: nat := 10_000_000 * ONE_TOKEN

  function Deployed(t0: nat): Config {
    InitialConfig(BASE_PRICE_BNB, BASE_PRICE_USDT, t0)
  }

  /** The thresholds of stake admission. */
  lemma AdmissionExamples(t0: nat)
    ensures CheckAdmission(Deployed(t0), BUYER, 2999 * ONE_TOKEN, 0, REFERRER, RESERVE) == Fail(BelowMinimumStake)
    ensures CheckAdmission(Deployed(t0), BUYER, 3000 * ONE_TOKEN, 0, REFERRER, RESERVE) == Pass
    ensures CheckAdmission(Deployed(t0), BUYER, 25000 * ONE_TOKEN, 1, REFERRER, RESERVE) == Fail(BelowTierMinimum)
    ensures CheckAdmission(Deployed(t0), BUYER, 29999 * ONE_TOKEN, 1, REFERRER, RESERVE) == Fail(BelowTierMinimum)
    ensures CheckAdmission(Deployed(t0), BUYER, 30000 * ONE_TOKEN, 1, REFERRER, RESERVE) == Pass
    ensures CheckAdmission(Deployed(t0), BUYER, 150000 * ONE_TOKEN, 2, REFERRER, RESERVE) == Fail(BelowTierMinimum)
    ensures CheckAdmission(Deployed(t0), BUYER, 299999 * ONE_TOKEN, 2, REFERRER, RESERVE) == Fail(BelowTierMinimum)
    ensures CheckAdmission(Deployed(t0), BUYER, 300000 * ONE_TOKEN, 2, REFERRER, RESERVE) == Pass
    ensures CheckAdmission(Deployed(t0), BUYER, 1_000_001 * ONE_TOKEN, 0, REFERRER, RESERVE) == Fail(AboveMaximumStake)
    ensures CheckAdmission(Deployed(t0), BUYER, 5000 * ONE_TOKEN, 0, BUYER, RESERVE) == Fail(SelfReferral)
    ensures CheckAdmission(Deployed(t0), BUYER, 5000 * ONE_TOKEN, 0, REFERRER, 4999 * ONE_TOKEN) == Fail(NotEnoughTokens)
  {
  }

  /** The price rises by one percent of the base per 120-day interval. */
  lemma PriceExamples(t0: nat, r: nat)
    requires r < PRICE_INCREASE_INTERVAL
    ensures CurrentPrice(Deployed(t0), Bnb, t0 + PRICE_INCREASE_INTERVAL + r) == BASE_PRICE_BNB * 101 / 100
    ensures CurrentPrice(Deployed(t0), Bnb, t0 + 2 * PRICE_INCREASE_INTERVAL + r) == 102 * ONE_TOKEN / 1000
    ensures Cost(5000 * ONE_TOKEN, CurrentPrice(Deployed(t0), Usdt, t0 + r)) == 150000 * ONE_TOKEN
    ensures Cost(5000 * ONE_TOKEN, CurrentPrice(Deployed(t0), Usdt, t0 + 3 * PRICE_INCREASE_INTERVAL + r))
            == 154500 * ONE_TOKEN
  {
    PriceAfterIntervals(BASE_PRICE_BNB, t0, 1, r);
    PriceAfterIntervals(BASE_PRICE_BNB, t0, 2, r);
    PriceAfterIntervals(BASE_PRICE_USDT, t0, 0, r);
    PriceAfterIntervals(BASE_PRICE_USDT, t0, 3, r);
    CostAtWholePrice(5000 * ONE_TOKEN, 30);
    assert BASE_PRICE_USDT * 103 / 100 == 309 * ONE_TOKEN / 10;
  }

  /** A six-month stake of 5000 tokens bought at t0. */
  function SixMonthStake(t0: nat): Stake {
    NewStake(5000 * ONE_TOKEN, 26 * WEEK, t0, ZERO_ADDRESS)
  }

  /** Rewards accrue per whole week at 80 % a year and stop at the lock end. */
  lemma RewardExamples(t0: nat)
    ensures StakeRewards(Deployed(t0), SixMonthStake(t0), t0 + WEEK - 1) == Ok(0)
    ensures StakeRewards(Deployed(t0), SixMonthStake(t0), t0 + WEEK + 1) == Ok(RewardFor(5000 * ONE_TOKEN, 8000, 1))
    ensures StakeRewards(Deployed(t0), SixMonthStake(t0), t0 + 4 * WEEK + 1) == Ok(RewardFor(5000 * ONE_TOKEN, 8000, 4))
    ensures StakeRewards(Deployed(t0), SixMonthStake(t0), t0 + 40 * WEEK) == Ok(RewardFor(5000 * ONE_TOKEN, 8000, 26))
    ensures StakeRewards(Deployed(t0), SixMonthStake(t0).(withdrawn := true), t0 + 4 * WEEK) == Ok(0)
    ensures ClaimStep(Deployed(t0), SixMonthStake(t0), t0 + WEEK - 1, RESERVE) == Err(ClaimTooSoon)
    ensures ClaimStep(Deployed(t0), SixMonthStake(t0), t0 + WEEK + 1, 0) == Err(InsufficientUsdt)
    ensures ClaimStep(Deployed(t0), SixMonthStake(t0).(withdrawn := true), t0 + WEEK, RESERVE)
            == Err(StakeAlreadyWithdrawn)
  {
    AccruedWholeWeeks(SixMonthStake(t0), 1, 1);
    AccruedWholeWeeks(SixMonthStake(t0), 4, 1);
    AccrualCappedAtLockEnd(SixMonthStake(t0), t0 + 40 * WEEK);
    assert RewardFor(5000 * ONE_TOKEN, 8000, 1) > 0;
  }

  /** Four weekly claims pay four weeks' reward, within the suite's 0.1-token tolerance
      of four times the weekly rate it computes. */
  lemma FourWeeklyClaims(t0: nat)
    ensures var p := ClaimAll(Deployed(t0), SixMonthStake(t0), WeeklyTimes(t0, 4), RESERVE);
            && p.claimedRewards == 4 * RewardFor(5000 * ONE_TOKEN, 8000, 1)
            && p.lastClaimTime == t0 + 4 * WEEK
    ensures RewardFor(5000 * ONE_TOKEN, 8000, 1) == 8000 * (5000 * ONE_TOKEN) / (52 * 10000)
    ensures 4 * RewardFor(5000 * ONE_TOKEN, 8000, 1) <= RewardFor(5000 * ONE_TOKEN, 8000, 4)
            < 4 * RewardFor(5000 * ONE_TOKEN, 8000, 1) + ONE_TOKEN / 10
  {
    WeeklyClaims(Deployed(t0), SixMonthStake(t0), 4, RESERVE);
    RewardTolerance(5000 * ONE_TOKEN, 8000, 4);
  }

  /** Phased release of the six-month stake after its lock ends at t0 + 26 weeks:
      nothing before the lock end or in its first week, then ten percent per whole week. */
  lemma WithdrawFirstWeeks(t0: nat)
    ensures WithdrawStep(SixMonthStake(t0), t0 + 26 * WEEK - 1) == Err(LockPeriodNotOver)
    ensures WithdrawStep(SixMonthStake(t0), t0 + 26 * WEEK + 1) == Err(NoNewAmount)
    ensures WithdrawStep(SixMonthStake(t0), t0 + 27 * WEEK + 1).Ok?
    ensures WithdrawStep(SixMonthStake(t0), t0 + 27 * WEEK + 1).value.1 == 500 * ONE_TOKEN
    ensures WithdrawStep(SixMonthStake(t0), t0 + 26 * WEEK + 11 * DAY).value.1 == 500 * ONE_TOKEN
  {
    var s := SixMonthStake(t0);
    WithdrawAfterWholeWeeks(s, 0, 1);
    WithdrawAfterWholeWeeks(s, 1, 1);
    WithdrawAfterWholeWeeks(s, 1, 4 * DAY);
  }

  /** Two and five whole weeks after the lock end, one withdrawal releases 20 and 50 percent. */
  lemma WithdrawLater(t0: nat)
    ensures WithdrawStep(SixMonthStake(t0), t0 + 28 * WEEK + 1).value.0.withdrawnPercentage == 20
    ensures WithdrawStep(SixMonthStake(t0), t0 + 31 * WEEK + 1).value.1 == 2500 * ONE_TOKEN
  {
    var s := SixMonthStake(t0);
    WithdrawAfterWholeWeeks(s, 2, 1);
    WithdrawAfterWholeWeeks(s, 5, 1);
  }

  /** Ten weeks after the lock end one withdrawal returns the whole principal and
      closes the stake; any later one fails. */
  lemma WithdrawAllAtOnce(t0: nat)
    ensures var (s', paid) := WithdrawStep(SixMonthStake(t0), t0 + 36 * WEEK + 1).value;
            && paid == 5000 * ONE_TOKEN && s'.withdrawn && s'.withdrawnPercentage == 100
            && WithdrawStep(s', t0 + 40 * WEEK) == Err(FullyWithdrawn)
  {
    WithdrawAfterWholeWeeks(SixMonthStake(t0), 10, 1);
  }

  /** A repeated withdrawal within the same week finds nothing new. */
  lemma WithdrawRepeatRejected(t0: nat)
    ensures var s' := WithdrawStep(SixMonthStake(t0), t0 + 27 * WEEK + 1).value.0;
            WithdrawStep(s', t0 + 27 * WEEK + 2) == Err(NoNewAmount)
  {
    var s := SixMonthStake(t0);
    WithdrawAfterWholeWeeks(s, 1, 1);
    WithdrawAfterWholeWeeks(WithdrawStep(s, t0 + 27 * WEEK + 1).value.0, 1, 2);
  }

  /** getAPY for the deployment lock periods, and an unknown period. */
  lemma ApyExamples(t0: nat)
    ensures ApyFor(Deployed(t0).lockPeriods, Deployed(t0).apys, 26 * WEEK) == Ok(8000)
    ensures ApyFor(Deployed(t0).lockPeriods, Deployed(t0).apys, 52 * WEEK) == Ok(10000)
    ensures ApyFor(Deployed(t0).lockPeriods, Deployed(t0).apys, 104 * WEEK) == Ok(12000)
    ensures ApyFor(Deployed(t0).lockPeriods, Deployed(t0).apys, 10 * WEEK) == Err(InvalidLockPeriod)
  {
  }

  /** The owner's setters accept and reject the values the suite uses. */
  lemma AdminExamples(t0: nat)
    ensures UpdateApy(Deployed(t0), Tiers(7000, 9000, 11000)).Ok?
    ensures UpdateApy(Deployed(t0), Tiers(11000, 16000, 21000)) == Err(ApyTooHigh)
    ensures UpdateLockPeriods(Deployed(t0), Tiers(24 * WEEK, 50 * WEEK, 100 * WEEK)).Ok?
    ensures UpdateLockPeriods(Deployed(t0), Tiers(10 * WEEK, 50 * WEEK, 100 * WEEK)) == Err(InvalidSixMonthPeriod)
    ensures UpdateLockPeriods(Deployed(t0), Tiers(24 * WEEK, 70 * WEEK, 100 * WEEK)) == Err(InvalidOneYearPeriod)
    ensures UpdateLockPeriods(Deployed(t0), Tiers(24 * WEEK, 50 * WEEK, 80 * WEEK)) == Err(InvalidTwoYearPeriod)
    ensures UpdateMinStakeAmount(Deployed(t0), 4000 * ONE_TOKEN).Ok?
    ensures UpdateMinStakeAmount(Deployed(t0), 0) == Err(InvalidMinAmount)
    ensures UpdateMinStakeAmount(Deployed(t0), 1_000_000 * ONE_TOKEN + 1) == Err(InvalidMinAmount)
    ensures UpdateMaxStakeAmount(Deployed(t0), 2_000_000 * ONE_TOKEN).Ok?
    ensures UpdateMaxStakeAmount(Deployed(t0), 3000 * ONE_TOKEN - 1) == Err(MaxBelowMin)
    ensures var m := Tiers(5000 * ONE_TOKEN, 50000 * ONE_TOKEN, 500000 * ONE_TOKEN);
            var r := UpdateMinimumStakeAmounts(Deployed(t0), m);
            r.Ok? && r.value.tierMinimums == m && r.value.minStakeAmount == 5000 * ONE_TOKEN
    ensures UpdateMinimumStakeAmounts(Deployed(t0), Tiers(0, 50000 * ONE_TOKEN, 500000 * ONE_TOKEN))
            == Err(InvalidSixMonthsMinimum)
    ensures UpdateMinimumStakeAmounts(Deployed(t0), Tiers(50000 * ONE_TOKEN, 40000 * ONE_TOKEN, 500000 * ONE_TOKEN))
            == Err(OneYearMinBelowSixMonths)
    ensures UpdateMinimumStakeAmounts(Deployed(t0), Tiers(5000 * ONE_TOKEN, 50000 * ONE_TOKEN, 40000 * ONE_TOKEN))
            == Err(TwoYearsMinBelowOneYear)
    ensures UpdateMinimumStakeAmounts(Deployed(t0), Tiers(5000 * ONE_TOKEN, 50000 * ONE_TOKEN, 1_000_000 * ONE_TOKEN + 1))
            == Err(TwoYearsMinAboveMax)
    ensures CurrentPrice(UpdateTokenPrices(Deployed(t0), 0, 0, t0 + 5), Bnb, t0 + 5) == 0
  {
  }

  /** Two purchases by the same user are kept as two stakes, in order. */
  method MultipleStakesScenario(t0: nat) returns (first: Stake, second: Stake, count: nat)
    ensures count == 2
    ensures first.amount == 100000 * ONE_TOKEN && first.lockPeriod == 26 * WEEK
    ensures second.amount == 200000 * ONE_TOKEN && second.lockPeriod == 52 * WEEK
  {
    var ledger := new PresaleStaking(BASE_PRICE_BNB, BASE_PRICE_USDT, t0);
    var r1 := ledger.BuyTokens(BUYER, 100000 * ONE_TOKEN, 0, ZERO_ADDRESS, Bnb, t0, RESERVE);
    var r2 := ledger.BuyTokens(BUYER, 200000 * ONE_TOKEN, 1, ZERO_ADDRESS, Bnb, t0 + 1, RESERVE);
    var list := ledger.UserStakes(BUYER);
    first, second, count := list[0], list[1], |list|;
  }

  /** A buyer referred by a user who was in turn referred: after the buyer's first
      weekly claim both referrers are credited, the direct one more; the direct
      referrer then withdraws the whole balance, and a second request fails. */
  method ReferralChainScenario(t0: nat) returns (level1: nat, level2: nat, paid: Result<nat, Error>, again: Result<nat, Error>)
    ensures 0 < level2 < level1
    ensures paid == Ok(level1)
    ensures again == Err(NoStakingReferralRewards)
  {
    var referrer2, referrer1, buyer := 3, 4, 5;
    var ledger := new PresaleStaking(BASE_PRICE_BNB, BASE_PRICE_USDT, t0);
    var b1 := ledger.BuyTokens(referrer1, 5000 * ONE_TOKEN, 0, referrer2, Bnb, t0, RESERVE);
    var b2 := ledger.BuyTokens(buyer, 5000 * ONE_TOKEN, 0, referrer1, Bnb, t0, RESERVE);
    assert ledger.StakingReferrals(referrer1) == [buyer];
    var claim := ledger.ClaimRewards(buyer, 0, t0 + WEEK, RESERVE);
    AccruedWholeWeeks(NewStake(5000 * ONE_TOKEN, 26 * WEEK, t0, referrer1), 1, 0);
    var reward := RewardFor(5000 * ONE_TOKEN, 8000, 1);
    assert claim == Ok(reward);
    assert reward == 76923076923076923076;
    level1 := ledger.StakingReferralRewards(referrer1);
    level2 := ledger.StakingReferralRewards(referrer2);
    assert level1 == Level1Credit(reward) && level2 == Level2Credit(reward);
    paid := ledger.WithdrawStakingReferralRewards(referrer1, RESERVE);
    again := ledger.WithdrawStakingReferralRewards(referrer1, RESERVE);
  }
}
