/** The rules of the presale staking ledger (list-of-stakes revision), stated on
    values: the configuration the owner can change, one stake record, and the
    pure calculations the ledger applies to them (price, admission, reward
    accrual, referral credit, phased principal release, admin validation).
    Amounts are in the token's smallest unit (18 decimals); times are seconds. */
module PresaleRules {
  import opened Base

  // ---------------------------------------------------------------------------
  // Constants
  // ---------------------------------------------------------------------------

  const BASIS_POINTS: nat := 10000
  const WEEKS_PER_YEAR: nat := 52
  /** The price rises one percent of the base price per interval of 120 days. */
  const PRICE_INCREASE_INTERVAL: nat := 172800 * 60
  const PRICE_INCREASE_PERCENT: nat := 1
  /** Share of a claimed reward credited to the direct referrer and to that referrer's own referrer. */
  const LEVEL1_PERCENT: nat := 30
  const LEVEL2_PERCENT: nat := 20
  /** Share of the principal released per whole week after the lock ends. */
  const RELEASE_PERCENT_PER_WEEK: nat := 10
  /** Upper bound on any tier's APY, in basis points. */
  const MAX_APY: nat := 12000
  /** Accepted ranges for the three lock periods, in seconds. */
  const SIX_MONTHS_MIN_LOCK: nat := 20 * WEEK
  const SIX_MONTHS_MAX_LOCK: nat := 32 * WEEK
  const ONE_YEAR_MIN_LOCK: nat := 45 * WEEK
  const ONE_YEAR_MAX_LOCK: nat := 60 * WEEK
  const TWO_YEARS_MIN_LOCK: nat := 90 * WEEK
  const TWO_YEARS_MAX_LOCK: nat := 120 * WEEK

  // ---------------------------------------------------------------------------
  // Data model
  // ---------------------------------------------------------------------------

  /** One value per lock tier: option 0 is six months, 1 is one year, 2 is two years. */
  datatype Tiers = Tiers(sixMonths: nat, oneYear: nat, twoYears: nat) {
    function At(option: nat): nat
      requires option < 3
    {
      if option == 0 then sixMonths else if option == 1 then oneYear else twoYears
    }
  }

  /** Everything the owner can reconfigure. The price of each currency rises from
      its base price in steps counted from `priceStartTime`. */
  datatype Config = Config(
    lockPeriods: Tiers,
    apys: Tiers,
    tierMinimums: Tiers,
    minStakeAmount: nat,
    maxStakeAmount: nat,
    baseTokenPrice: nat,
    baseTokenPriceUsdt: nat,
    priceStartTime: nat)

  datatype Currency = Bnb | Usdt

  /** One staking position, with the fields of the contract's Stake record. */
  datatype Stake = Stake(
    amount: nat,
    stakingStartTime: nat,
    lockPeriod: nat,
    claimedRewards: nat,
    withdrawn: bool,
    lastClaimTime: nat,
    withdrawalStartTime: nat,
    withdrawnPercentage: nat,
    referrer: Address)
  {
    function LockEnd(): nat { stakingStartTime + lockPeriod }
  }

  /** The ledger's revert reasons. */
  datatype Error =
    | InvalidLockOption          // a lock option other than 0, 1 or 2
    | BelowMinimumStake          // "Amount below minimum stake"
    | BelowTierMinimum           // "Amount below minimum stake for selected lock period"
    | AboveMaximumStake          // "Amount above maximum stake"
    | SelfReferral               // "Cannot refer yourself"
    | NotEnoughTokens            // "Not enough tokens in contract"
    | InvalidStakeIndex          // "Invalid stake index"
    | IndexOutOfBounds           // array access past the end (panic 0x32)
    | StakeAlreadyWithdrawn      // "Stake already withdrawn"
    | ClaimTooSoon               // "Can claim rewards weekly"
    | InsufficientUsdt           // "Insufficient USDT balance"
    | NoStakingReferralRewards   // "No staking referral rewards"
    | LockPeriodNotOver          // "Lock period not over"
    | FullyWithdrawn             // "Fully withdrawn"
    | NoNewAmount                // "No new amount available"
    | InvalidLockPeriod          // "Invalid lock period"
    | ApyTooHigh                 // "APY too high"
    | InvalidSixMonthPeriod      // "Invalid 6-month period"
    | InvalidOneYearPeriod       // "Invalid 1-year period"
    | InvalidTwoYearPeriod       // "Invalid 2-year period"
    | InvalidMinAmount           // "Invalid min amount"
    | MaxBelowMin                // "Max must be greater than min"
    | InvalidSixMonthsMinimum    // "Invalid six months minimum"
    | OneYearMinBelowSixMonths   // "One year min must be greater than six months min"
    | TwoYearsMinBelowOneYear    // "Two years min must be greater than one year min"
    | TwoYearsMinAboveMax        // "Two years min must be less than max stake amount"

  datatype Check = Pass | Fail(error: Error)

  /** The deployment configuration: 26/52/104-week locks at 80/100/120 % APY,
      tier minimums 3000/30000/300000 tokens, stakes between 3000 and 1,000,000 tokens. */
  function InitialConfig(basePriceBnb: nat, basePriceUsdt: nat, deployTime: nat): Config {
    Config(
      Tiers(26 * WEEK, 52 * WEEK, 104 * WEEK),
      Tiers(8000, 10000, 12000),
      Tiers(3000 * ONE_TOKEN, 30000 * ONE_TOKEN, 300000 * ONE_TOKEN),
      3000 * ONE_TOKEN,
      1_000_000 * ONE_TOKEN,
      basePriceBnb,
      basePriceUsdt,
      deployTime)
  }

  ghost predicate LockPeriodsInRange(p: Tiers) {
    && SIX_MONTHS_MIN_LOCK <= p.sixMonths <= SIX_MONTHS_MAX_LOCK
    && ONE_YEAR_MIN_LOCK <= p.oneYear <= ONE_YEAR_MAX_LOCK
    && TWO_YEARS_MIN_LOCK <= p.twoYears <= TWO_YEARS_MAX_LOCK
  }

  /** The configuration invariant every admin setter preserves. */
  ghost predicate ConfigValid(c: Config) {
    && c.minStakeAmount < c.maxStakeAmount
    && LockPeriodsInRange(c.lockPeriods)
    && c.apys.sixMonths <= MAX_APY && c.apys.oneYear <= MAX_APY && c.apys.twoYears <= MAX_APY
  }

  /** What a stake is allowed to look like: its released share moves in steps of
      ten up to one hundred percent, and it is closed exactly at one hundred. */
  ghost predicate StakeInv(s: Stake) {
    && s.withdrawnPercentage <= 100
    && s.withdrawnPercentage % RELEASE_PERCENT_PER_WEEK == 0
    && (s.withdrawn <==> s.withdrawnPercentage == 100)
  }

  lemma InitialConfigValid(basePriceBnb: nat, basePriceUsdt: nat, deployTime: nat)
    ensures ConfigValid(InitialConfig(basePriceBnb, basePriceUsdt, deployTime))
  {
  }

  // ---------------------------------------------------------------------------
  // Price
  // ---------------------------------------------------------------------------

  /** Whole price intervals elapsed since the price start time. */
  function IntervalsElapsed(start: nat, now: nat): nat {
    if now <= start then 0 else (now - start) / PRICE_INCREASE_INTERVAL
  }

  /** The price after k whole intervals is base * (100 + k) / 100: linear, not compounded. */
  function PriceAt(base: nat, start: nat, now: nat): (p: nat)
    ensures p >= base
  {
    var k := IntervalsElapsed(start, now);
    MulDivAtLeast(base, 100 + PRICE_INCREASE_PERCENT * k, 100);
    base * (100 + PRICE_INCREASE_PERCENT * k) / 100
  }

  function CurrentPrice(c: Config, currency: Currency, now: nat): nat {
    match currency
    case Bnb => PriceAt(c.baseTokenPrice, c.priceStartTime, now)
    case Usdt => PriceAt(c.baseTokenPriceUsdt, c.priceStartTime, now)
  }

  /** The payment due for `amount` token units at `price` per whole token. */
  function Cost(amount: nat, price: nat): (cost: nat)
    ensures cost * ONE_TOKEN <= amount * price < (cost + 1) * ONE_TOKEN
  {
    DivBounds(amount * price, ONE_TOKEN);
    amount * price / ONE_TOKEN
  }

  // ---------------------------------------------------------------------------
  // Stake admission
  // ---------------------------------------------------------------------------

  /** The checks a purchase passes before a stake is created. */
  function CheckAdmission(c: Config, buyer: Address, amount: nat, option: nat,
                          referrer: Address, tokenReserve: nat): (r: Check)
    ensures r == Pass <==>
      && option < 3
      && c.minStakeAmount <= amount
      && c.tierMinimums.At(option) <= amount
      && amount <= c.maxStakeAmount
      && referrer != buyer
      && amount <= tokenReserve
    ensures r == Fail(InvalidLockOption) <==> option >= 3
    ensures r == Fail(BelowMinimumStake) <==> option < 3 && amount < c.minStakeAmount
    ensures r == Fail(BelowTierMinimum) <==>
      option < 3 && c.minStakeAmount <= amount < c.tierMinimums.At(option)
    ensures r == Fail(AboveMaximumStake) ==> amount > c.maxStakeAmount
    ensures r == Fail(SelfReferral) ==> referrer == buyer
    ensures r == Fail(NotEnoughTokens) ==> tokenReserve < amount
  {
    if option >= 3 then Fail(InvalidLockOption)
    else if amount < c.minStakeAmount then Fail(BelowMinimumStake)
    else if amount < c.tierMinimums.At(option) then Fail(BelowTierMinimum)
    else if amount > c.maxStakeAmount then Fail(AboveMaximumStake)
    else if referrer == buyer then Fail(SelfReferral)
    else if tokenReserve < amount then Fail(NotEnoughTokens)
    else Pass
  }

  /** The record a successful purchase appends to the buyer's stakes. */
  function NewStake(amount: nat, lockPeriod: nat, now: nat, referrer: Address): (s: Stake)
    ensures StakeInv(s) && !s.withdrawn && s.claimedRewards == 0 && s.withdrawnPercentage == 0
    ensures s.amount == amount && s.lockPeriod == lockPeriod && s.referrer == referrer
    ensures s.stakingStartTime == now && s.lastClaimTime == now && s.withdrawalStartTime == 0
    ensures s.LockEnd() == now + lockPeriod
  {
    Stake(amount, now, lockPeriod, 0, false, now, 0, 0, referrer)
  }

  // ---------------------------------------------------------------------------
  // Rewards
  // ---------------------------------------------------------------------------

  /** getAPY: the APY of the tier whose lock period is `lockPeriod`. */
  function ApyFor(lockPeriods: Tiers, apys: Tiers, lockPeriod: nat): (r: Result<nat, Error>)
    ensures r.Ok? <==>
      lockPeriod == lockPeriods.sixMonths || lockPeriod == lockPeriods.oneYear ||
      lockPeriod == lockPeriods.twoYears
    ensures r.Err? ==> r.error == InvalidLockPeriod
    ensures lockPeriod == lockPeriods.sixMonths ==> r == Ok(apys.sixMonths)
    ensures LockPeriodsInRange(lockPeriods) ==>
      forall option :: option < 3 && lockPeriod == lockPeriods.At(option) ==> r == Ok(apys.At(option))
  {
    if lockPeriod == lockPeriods.sixMonths then Ok(apys.sixMonths)
    else if lockPeriod == lockPeriods.oneYear then Ok(apys.oneYear)
    else if lockPeriod == lockPeriods.twoYears then Ok(apys.twoYears)
    else Err(InvalidLockPeriod)
  }

  /** The number of whole weeks that fit between the last claim and the earlier of
      `now` and the lock end: accrual never runs past the lock end. */
  function AccruedWeeks(s: Stake, now: nat): (w: nat)
    ensures w > 0 ==> s.lastClaimTime + w * WEEK <= Min(now, s.LockEnd())
    ensures s.lastClaimTime + (w + 1) * WEEK > Min(now, s.LockEnd())
  {
    var horizon := Min(now, s.LockEnd());
    if horizon <= s.lastClaimTime then 0
    else
      var w := (horizon - s.lastClaimTime) / WEEK;
      DivBounds(horizon - s.lastClaimTime, WEEK);
      w
  }

  /** Reward for `weeks` whole weeks at `apy` basis points a year, multiplied out before dividing. */
  function RewardFor(amount: nat, apy: nat, weeks: nat): nat {
    amount * apy * weeks / (WEEKS_PER_YEAR * BASIS_POINTS)
  }

  /** calculateRewards on one stake: zero for a withdrawn stake or before a whole
      week has passed, otherwise the reward for the accrued weeks. */
  function StakeRewards(c: Config, s: Stake, now: nat): (r: Result<nat, Error>)
    ensures s.withdrawn || AccruedWeeks(s, now) == 0 ==> r == Ok(0)
    ensures now < s.lastClaimTime + WEEK ==> r == Ok(0)
    ensures r.Ok? && r.value > 0 ==>
      ApyFor(c.lockPeriods, c.apys, s.lockPeriod).Ok? &&
      r.value == RewardFor(s.amount, ApyFor(c.lockPeriods, c.apys, s.lockPeriod).value, AccruedWeeks(s, now))
    ensures r.Err? ==> r.error == InvalidLockPeriod
    ensures !s.withdrawn && AccruedWeeks(s, now) > 0 ==>
      var apy := ApyFor(c.lockPeriods, c.apys, s.lockPeriod);
      && (apy.Ok? ==> r == Ok(RewardFor(s.amount, apy.value, AccruedWeeks(s, now))))
      && (apy.Err? ==> r == Err(InvalidLockPeriod))
  {
    if s.withdrawn then Ok(0)
    else
      var w := AccruedWeeks(s, now);
      if w == 0 then Ok(0)
      else
        var apy :- ApyFor(c.lockPeriods, c.apys, s.lockPeriod);
        Ok(RewardFor(s.amount, apy, w))
  }

  /** claimRewards on one stake, given the contract's USDT balance. On success: the
      claimed stake and the reward paid out. */
  function ClaimStep(c: Config, s: Stake, now: nat, usdtReserve: nat): (r: Result<(Stake, nat), Error>)
    ensures s.withdrawn ==> r == Err(StakeAlreadyWithdrawn)
    ensures !s.withdrawn && now < s.lastClaimTime + WEEK ==> r == Err(ClaimTooSoon)
    ensures r.Err? && r.error == InsufficientUsdt ==>
      StakeRewards(c, s, now).Ok? && usdtReserve < StakeRewards(c, s, now).value
    ensures r.Ok? ==>
      && !s.withdrawn && now >= s.lastClaimTime + WEEK
      && StakeRewards(c, s, now) == Ok(r.value.1)
      && r.value.1 <= usdtReserve
      && r.value.0 == s.(claimedRewards := s.claimedRewards + r.value.1, lastClaimTime := now)
    ensures r.Ok? <==>
      && !s.withdrawn && now >= s.lastClaimTime + WEEK
      && StakeRewards(c, s, now).Ok? && StakeRewards(c, s, now).value <= usdtReserve
  {
    if s.withdrawn then Err(StakeAlreadyWithdrawn)
    else if now < s.lastClaimTime + WEEK then Err(ClaimTooSoon)
    else
      var reward :- StakeRewards(c, s, now);
      if usdtReserve < reward then Err(InsufficientUsdt)
      else Ok((s.(claimedRewards := s.claimedRewards + reward, lastClaimTime := now), reward))
  }

  // ---------------------------------------------------------------------------
  // Referral credit
  // ---------------------------------------------------------------------------

  function Level1Credit(reward: nat): nat { reward * LEVEL1_PERCENT / 100 }
  function Level2Credit(reward: nat): nat { reward * LEVEL2_PERCENT / 100 }

  function BalanceOf(m: map<Address, nat>, a: Address): nat {
    if a in m then m[a] else 0
  }

  function ReferrerOf(referrerOf: map<Address, Address>, a: Address): Address {
    if a in referrerOf then referrerOf[a] else ZERO_ADDRESS
  }

  /** The referral balances after a claim of `reward` on a stake whose referrer is
      `level1`: the direct referrer and its own recorded referrer are credited. */
  function CreditReferrers(balances: map<Address, nat>, referrerOf: map<Address, Address>,
                           level1: Address, reward: nat): (r: map<Address, nat>)
    ensures forall a :: (BalanceOf(r, a) ==
      BalanceOf(balances, a)
      + (if level1 != ZERO_ADDRESS && a == level1 then Level1Credit(reward) else 0)
      + (if level1 != ZERO_ADDRESS && ReferrerOf(referrerOf, level1) != ZERO_ADDRESS
            && a == ReferrerOf(referrerOf, level1)
         then Level2Credit(reward) else 0))
  {
    if level1 == ZERO_ADDRESS then balances
    else
      var b1 := balances[level1 := BalanceOf(balances, level1) + Level1Credit(reward)];
      var level2 := ReferrerOf(referrerOf, level1);
      if level2 == ZERO_ADDRESS then b1
      else b1[level2 := BalanceOf(b1, level2) + Level2Credit(reward)]
  }

  // ---------------------------------------------------------------------------
  // Phased principal release
  // ---------------------------------------------------------------------------

  /** The share of the principal unlocked at `now`: ten percent per whole week since
      the lock ended, at most one hundred. */
  function UnlockedPercentage(s: Stake, now: nat): (p: nat)
    requires now >= s.LockEnd()
    ensures p <= 100 && p % RELEASE_PERCENT_PER_WEEK == 0
  {
    Min(RELEASE_PERCENT_PER_WEEK * ((now - s.LockEnd()) / WEEK), 100)
  }

  /** The principal returned once `percentage` percent has been released. */
  function Released(amount: nat, percentage: nat): nat {
    amount * percentage / 100
  }

  /** withdraw on one stake. On success: the stake afterwards and the principal paid out. */
  function WithdrawStep(s: Stake, now: nat): (r: Result<(Stake, nat), Error>)
    ensures s.withdrawn ==> r == Err(FullyWithdrawn)
    ensures !s.withdrawn && now < s.LockEnd() ==> r == Err(LockPeriodNotOver)
    ensures r.Err? && r.error == NoNewAmount ==>
      now >= s.LockEnd() && UnlockedPercentage(s, now) <= s.withdrawnPercentage
    ensures r.Ok? ==>
      var (s', paid) := r.value;
      && now >= s.LockEnd()
      && s.withdrawnPercentage < s'.withdrawnPercentage == UnlockedPercentage(s, now)
      && paid == Released(s.amount, s'.withdrawnPercentage) - Released(s.amount, s.withdrawnPercentage)
      && (s'.withdrawn <==> s'.withdrawnPercentage == 100)
      && s'.amount == s.amount && s'.lockPeriod == s.lockPeriod
      && s'.stakingStartTime == s.stakingStartTime && s'.lastClaimTime == s.lastClaimTime
      && s'.claimedRewards == s.claimedRewards && s'.referrer == s.referrer
      && s'.withdrawalStartTime == (if s.withdrawalStartTime == 0 then now else s.withdrawalStartTime)
    ensures StakeInv(s) && r.Ok? ==> StakeInv(r.value.0)
  {
    if s.withdrawn then Err(FullyWithdrawn)
    else if now < s.LockEnd() then Err(LockPeriodNotOver)
    else
      var pct := UnlockedPercentage(s, now);
      if pct <= s.withdrawnPercentage then Err(NoNewAmount)
      else
        ReleasedMonotone(s.amount, s.withdrawnPercentage, pct);
        var paid := Released(s.amount, pct) - Released(s.amount, s.withdrawnPercentage);
        var start := if s.withdrawalStartTime == 0 then now else s.withdrawalStartTime;
        Ok((s.(withdrawnPercentage := pct, withdrawalStartTime := start, withdrawn := pct == 100), paid))
  }

  // ---------------------------------------------------------------------------
  // Admin setters
  // ---------------------------------------------------------------------------

  /** updateAPY: every tier's APY must be at most MAX_APY. */
  function UpdateApy(c: Config, apys: Tiers): (r: Result<Config, Error>)
    ensures r.Ok? <==> apys.sixMonths <= MAX_APY && apys.oneYear <= MAX_APY && apys.twoYears <= MAX_APY
    ensures r.Ok? ==> r.value == c.(apys := apys)
    ensures r.Err? ==> r.error == ApyTooHigh
    ensures ConfigValid(c) && r.Ok? ==> ConfigValid(r.value)
  {
    if apys.sixMonths > MAX_APY || apys.oneYear > MAX_APY || apys.twoYears > MAX_APY then Err(ApyTooHigh)
    else Ok(c.(apys := apys))
  }

  /** updateLockPeriods: each period must lie in its tier's accepted range. */
  function UpdateLockPeriods(c: Config, p: Tiers): (r: Result<Config, Error>)
    ensures r.Ok? <==> LockPeriodsInRange(p)
    ensures r.Ok? ==> r.value == c.(lockPeriods := p)
    ensures r == Err(InvalidSixMonthPeriod) <==>
      !(SIX_MONTHS_MIN_LOCK <= p.sixMonths <= SIX_MONTHS_MAX_LOCK)
    ensures r == Err(InvalidOneYearPeriod) <==>
      (SIX_MONTHS_MIN_LOCK <= p.sixMonths <= SIX_MONTHS_MAX_LOCK) &&
      !(ONE_YEAR_MIN_LOCK <= p.oneYear <= ONE_YEAR_MAX_LOCK)
    ensures r == Err(InvalidTwoYearPeriod) <==>
      (SIX_MONTHS_MIN_LOCK <= p.sixMonths <= SIX_MONTHS_MAX_LOCK) &&
      (ONE_YEAR_MIN_LOCK <= p.oneYear <= ONE_YEAR_MAX_LOCK) &&
      !(TWO_YEARS_MIN_LOCK <= p.twoYears <= TWO_YEARS_MAX_LOCK)
    ensures ConfigValid(c) && r.Ok? ==> ConfigValid(r.value)
  {
    if !(SIX_MONTHS_MIN_LOCK <= p.sixMonths <= SIX_MONTHS_MAX_LOCK) then Err(InvalidSixMonthPeriod)
    else if !(ONE_YEAR_MIN_LOCK <= p.oneYear <= ONE_YEAR_MAX_LOCK) then Err(InvalidOneYearPeriod)
    else if !(TWO_YEARS_MIN_LOCK <= p.twoYears <= TWO_YEARS_MAX_LOCK) then Err(InvalidTwoYearPeriod)
    else Ok(c.(lockPeriods := p))
  }

  /** updateMinStakeAmount: the new global minimum must be positive and below the maximum. */
  function UpdateMinStakeAmount(c: Config, v: nat): (r: Result<Config, Error>)
    ensures r.Ok? <==> 0 < v < c.maxStakeAmount
    ensures r.Ok? ==> r.value == c.(minStakeAmount := v)
    ensures r.Err? ==> r.error == InvalidMinAmount
    ensures ConfigValid(c) && r.Ok? ==> ConfigValid(r.value)
  {
    if v == 0 || v >= c.maxStakeAmount then Err(InvalidMinAmount)
    else Ok(c.(minStakeAmount := v))
  }

  /** updateMaxStakeAmount: the new maximum must exceed the global minimum. */
  function UpdateMaxStakeAmount(c: Config, v: nat): (r: Result<Config, Error>)
    ensures r.Ok? <==> c.minStakeAmount < v
    ensures r.Ok? ==> r.value == c.(maxStakeAmount := v)
    ensures r.Err? ==> r.error == MaxBelowMin
    ensures ConfigValid(c) && r.Ok? ==> ConfigValid(r.value)
  {
    if v <= c.minStakeAmount then Err(MaxBelowMin)
    else Ok(c.(maxStakeAmount := v))
  }

  /** updateMinimumStakeAmounts: tier minimums must be positive, strictly increasing
      by tier and below the maximum; the global minimum becomes the six-month minimum. */
  function UpdateMinimumStakeAmounts(c: Config, m: Tiers): (r: Result<Config, Error>)
    ensures r.Ok? <==>
      0 < m.sixMonths < m.oneYear < m.twoYears < c.maxStakeAmount
    ensures r.Ok? ==> r.value == c.(tierMinimums := m, minStakeAmount := m.sixMonths)
    ensures r == Err(InvalidSixMonthsMinimum) <==> m.sixMonths == 0
    ensures r == Err(OneYearMinBelowSixMonths) <==> 0 < m.sixMonths && m.oneYear <= m.sixMonths
    ensures r == Err(TwoYearsMinBelowOneYear) <==> 0 < m.sixMonths < m.oneYear && m.twoYears <= m.oneYear
    ensures r == Err(TwoYearsMinAboveMax) <==> 0 < m.sixMonths < m.oneYear < m.twoYears && m.twoYears >= c.maxStakeAmount
    ensures ConfigValid(c) && r.Ok? ==> ConfigValid(r.value)
  {
    if m.sixMonths == 0 then Err(InvalidSixMonthsMinimum)
    else if m.oneYear <= m.sixMonths then Err(OneYearMinBelowSixMonths)
    else if m.twoYears <= m.oneYear then Err(TwoYearsMinBelowOneYear)
    else if m.twoYears >= c.maxStakeAmount then Err(TwoYearsMinAboveMax)
    else Ok(c.(tierMinimums := m, minStakeAmount := m.sixMonths))
  }

  /** updateTokenPrices: any prices, zero included; the escalation restarts from them. */
  function UpdateTokenPrices(c: Config, bnb: nat, usdt: nat, now: nat): (r: Config)
    ensures CurrentPrice(r, Bnb, now) == bnb && CurrentPrice(r, Usdt, now) == usdt
    ensures ConfigValid(c) ==> ConfigValid(r)
  {
    c.(baseTokenPrice := bnb, baseTokenPriceUsdt := usdt, priceStartTime := now)
  }

  // ---------------------------------------------------------------------------
  // Arithmetic helpers
  // ---------------------------------------------------------------------------

  lemma DivBounds(n: nat, d: nat)
    requires d > 0
    ensures (n / d) * d <= n < (n / d + 1) * d
  {
  }

  lemma DivUnique(n: int, d: nat, q: int, r: int)
    requires d > 0 && 0 <= r < d && n == q * d + r
    ensures n / d == q && n % d == r
  {
    var q0, r0 := n / d, n % d;
    assert (q0 - q) * d == r - r0;
    ZeroMultiple(q0 - q, d);
  }

  lemma ZeroMultiple(k: int, d: nat)
    requires d > 0 && 0 - d < k * d < d
    ensures k == 0
  {
    if k >= 1 {
      MulLe(1, k, d);
      assert false;
    } else if k <= -1 {
      MulLe(k, -1, d);
      assert false;
    }
  }

  lemma MulLe(a: int, b: int, d: nat)
    requires a <= b
    ensures a * d <= b * d
  {
  }

  lemma MulDivAtLeast(base: nat, factor: nat, d: nat)
    requires d > 0 && factor >= d
    ensures base * factor / d >= base
  {
    assert base * factor >= base * d by { MulLe(d, factor, base); }
    DivUnique(base * d, d, base, 0);
    DivMonotone(base * d, base * factor, d);
  }

  lemma DivMonotone(a: nat, b: nat, d: nat)
    requires d > 0 && a <= b
    ensures a / d <= b / d
  {
    if a / d > b / d {
      DivBounds(a, d);
      DivBounds(b, d);
      MulLe(b / d + 1, a / d, d);
    }
  }

  lemma ReleasedMonotone(amount: nat, p: nat, q: nat)
    requires p <= q
    ensures Released(amount, p) <= Released(amount, q)
  {
    MulLe(p, q, amount);
    DivMonotone(amount * p, amount * q, 100);
  }
}
