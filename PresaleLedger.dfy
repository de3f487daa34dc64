/** The presale staking ledger as an object: the configuration, every user's list
    of stakes, the referral graph and the referral balances, updated in place by
    the ledger's operations. The clock and the contract's token and USDT balances
    are parameters; payments themselves are not modelled, only the amount due or
    paid out, returned on success. */
module PresaleLedger {
  import opened Base
  import opened PresaleRules

  ghost predicate AllWellFormed(ss: seq<Stake>) {
    forall i | 0 <= i < |ss| :: StakeInv(ss[i])
  }

  class PresaleStaking {
    var config: Config
    var stakes: map<Address, seq<Stake>>
    /** The referrer recorded for a user by that user's first referred purchase. */
    var referrerOf: map<Address, Address>
    /** The users each referrer has brought in, in order of their first referred purchase. */
    var referrals: map<Address, seq<Address>>
    var referralRewards: map<Address, nat>

    ghost predicate Valid()
      reads this
    {
      && ConfigValid(config)
      && (forall u | u in stakes :: AllWellFormed(stakes[u]))
    }

    /** getUserStakes: a user's stakes in the order they were bought. */
    function UserStakes(user: Address): (ss: seq<Stake>)
      reads this
      ensures user !in stakes ==> ss == []
      ensures Valid() ==> AllWellFormed(ss)
    {
      if user in stakes then stakes[user] else []
    }

    /** getStakingReferrals: the users a referrer brought in; none for an address
        nobody named. */
    function StakingReferrals(referrer: Address): (users: seq<Address>)
      reads this
      ensures referrer !in referrals ==> users == []
    {
      if referrer in referrals then referrals[referrer] else []
    }

    /** stakingReferralRewards: the referral balance not yet withdrawn. */
    function StakingReferralRewards(a: Address): nat
      reads this
    {
      BalanceOf(referralRewards, a)
    }

    /** getAPY */
    function GetApy(lockPeriod: nat): (r: Result<nat, Error>)
      reads this
      ensures r.Ok? <==>
        lockPeriod == config.lockPeriods.sixMonths || lockPeriod == config.lockPeriods.oneYear ||
        lockPeriod == config.lockPeriods.twoYears
      ensures r.Err? ==> r.error == InvalidLockPeriod
      ensures Valid() ==>
        forall option :: option < 3 && lockPeriod == config.lockPeriods.At(option) ==> r == Ok(config.apys.At(option))
    {
      ApyFor(config.lockPeriods, config.apys, lockPeriod)
    }

    /** getCurrentTokenPrice and getCurrentTokenPriceUSDT */
    function CurrentTokenPrice(currency: Currency, now: nat): (price: nat)
      reads this
      ensures var base := if currency == Bnb then config.baseTokenPrice else config.baseTokenPriceUsdt;
              && price >= base
              && (now < config.priceStartTime + PRICE_INCREASE_INTERVAL ==> price == base)
    {
      CurrentPrice(config, currency, now)
    }

    /** calculateRewards: reading a stake index past the end of the list fails. */
    function CalculateRewards(user: Address, index: nat, now: nat): (r: Result<nat, Error>)
      reads this
      ensures index >= |UserStakes(user)| ==> r == Err(IndexOutOfBounds)
      ensures index < |UserStakes(user)| ==> r == StakeRewards(config, UserStakes(user)[index], now)
    {
      if index >= |UserStakes(user)| then Err(IndexOutOfBounds)
      else StakeRewards(config, UserStakes(user)[index], now)
    }

    constructor(basePriceBnb: nat, basePriceUsdt: nat, now: nat)
      ensures Valid()
      ensures config == InitialConfig(basePriceBnb, basePriceUsdt, now)
      ensures stakes == map[] && referrerOf == map[] && referrals == map[] && referralRewards == map[]
    {
      config := InitialConfig(basePriceBnb, basePriceUsdt, now);
      stakes := map[];
      referrerOf := map[];
      referrals := map[];
      referralRewards := map[];
      InitialConfigValid(basePriceBnb, basePriceUsdt, now);
    }

    /** buyTokens / buyTokensWithUSDT: admit the purchase, append a new stake to the
        buyer's list, record a first referrer, and return the payment due. */
    method BuyTokens(buyer: Address, amount: nat, option: nat, referrer: Address,
                     currency: Currency, now: nat, tokenReserve: nat) returns (r: Result<nat, Error>)
      requires Valid()
      modifies this
      ensures Valid()
      ensures config == old(config) && referralRewards == old(referralRewards)
      ensures var check := CheckAdmission(old(config), buyer, amount, option, referrer, tokenReserve);
              check.Fail? ==>
                r == Err(check.error) &&
                stakes == old(stakes) && referrerOf == old(referrerOf) && referrals == old(referrals)
      ensures var check := CheckAdmission(old(config), buyer, amount, option, referrer, tokenReserve);
              check == Pass ==>
                && r == Ok(Cost(amount, CurrentPrice(old(config), currency, now)))
                && stakes == old(stakes)[buyer := old(UserStakes(buyer)) +
                                         [NewStake(amount, old(config).lockPeriods.At(option), now, referrer)]]
                && (if referrer != ZERO_ADDRESS && buyer !in old(referrerOf) then
                      && referrerOf == old(referrerOf)[buyer := referrer]
                      && referrals == old(referrals)[referrer := old(StakingReferrals(referrer)) + [buyer]]
                    else referrerOf == old(referrerOf) && referrals == old(referrals))
    {
      var check := CheckAdmission(config, buyer, amount, option, referrer, tokenReserve);
      if check.Fail? {
        return Err(check.error);
      }
      var s := NewStake(amount, config.lockPeriods.At(option), now, referrer);
      assert AllWellFormed(UserStakes(buyer) + [s]);
      stakes := stakes[buyer := UserStakes(buyer) + [s]];
      if referrer != ZERO_ADDRESS && buyer !in referrerOf {
        referrerOf := referrerOf[buyer := referrer];
        referrals := referrals[referrer := StakingReferrals(referrer) + [buyer]];
      }
      r := Ok(Cost(amount, CurrentPrice(config, currency, now)));
    }

    /** claimRewards: pay the accrued reward of one stake and credit two levels of referrers. */
    method ClaimRewards(user: Address, index: nat, now: nat, usdtReserve: nat) returns (r: Result<nat, Error>)
      requires Valid()
      modifies this
      ensures Valid()
      ensures config == old(config) && referrerOf == old(referrerOf) && referrals == old(referrals)
      ensures index >= |old(UserStakes(user))| ==>
        r == Err(InvalidStakeIndex) && stakes == old(stakes) && referralRewards == old(referralRewards)
      ensures index < |old(UserStakes(user))| ==>
        var s := old(UserStakes(user))[index];
        var step := ClaimStep(old(config), s, now, usdtReserve);
        && (step.Err? ==>
              r == Err(step.error) && stakes == old(stakes) && referralRewards == old(referralRewards))
        && (step.Ok? ==>
              && r == Ok(step.value.1)
              && stakes == old(stakes)[user := old(UserStakes(user))[index := step.value.0]]
              && referralRewards == CreditReferrers(old(referralRewards), old(referrerOf), s.referrer, step.value.1))
    {
      var list := UserStakes(user);
      if index >= |list| {
        return Err(InvalidStakeIndex);
      }
      var step := ClaimStep(config, list[index], now, usdtReserve);
      if step.Err? {
        return Err(step.error);
      }
      var (s', reward) := step.value;
      assert AllWellFormed(list[index := s']);
      stakes := stakes[user := list[index := s']];
      referralRewards := CreditReferrers(referralRewards, referrerOf, list[index].referrer, reward);
      r := Ok(reward);
    }

    /** withdrawStakingReferralRewards: pay out the caller's whole referral balance. */
    method WithdrawStakingReferralRewards(caller: Address, usdtReserve: nat) returns (r: Result<nat, Error>)
      requires Valid()
      modifies this
      ensures Valid()
      ensures config == old(config) && stakes == old(stakes)
      ensures referrerOf == old(referrerOf) && referrals == old(referrals)
      ensures var balance := old(StakingReferralRewards(caller));
              && (balance == 0 ==> r == Err(NoStakingReferralRewards))
              && (0 < balance && usdtReserve < balance ==> r == Err(InsufficientUsdt))
              && (0 < balance <= usdtReserve ==>
                    r == Ok(balance) && referralRewards == old(referralRewards)[caller := 0])
              && (r.Err? ==> referralRewards == old(referralRewards))
    {
      var balance := StakingReferralRewards(caller);
      if balance == 0 {
        return Err(NoStakingReferralRewards);
      }
      if usdtReserve < balance {
        return Err(InsufficientUsdt);
      }
      referralRewards := referralRewards[caller := 0];
      r := Ok(balance);
    }

    /** withdraw: release the next share of one stake's principal after its lock. */
    method Withdraw(user: Address, index: nat, now: nat) returns (r: Result<nat, Error>)
      requires Valid()
      modifies this
      ensures Valid()
      ensures config == old(config) && referralRewards == old(referralRewards)
      ensures referrerOf == old(referrerOf) && referrals == old(referrals)
      ensures index >= |old(UserStakes(user))| ==> r == Err(InvalidStakeIndex) && stakes == old(stakes)
      ensures index < |old(UserStakes(user))| ==>
        var step := WithdrawStep(old(UserStakes(user))[index], now);
        && (step.Err? ==> r == Err(step.error) && stakes == old(stakes))
        && (step.Ok? ==>
              r == Ok(step.value.1) &&
              stakes == old(stakes)[user := old(UserStakes(user))[index := step.value.0]])
    {
      var list := UserStakes(user);
      if index >= |list| {
        return Err(InvalidStakeIndex);
      }
      assert StakeInv(list[index]);
      var step := WithdrawStep(list[index], now);
      if step.Err? {
        return Err(step.error);
      }
      var (s', paid) := step.value;
      assert AllWellFormed(list[index := s']);
      stakes := stakes[user := list[index := s']];
      r := Ok(paid);
    }

    // -------------------------------------------------------------------------
    // Owner's setters. Each leaves everything but the configuration untouched.
    // -------------------------------------------------------------------------

    method UpdateApy(apys: Tiers) returns (r: Check)
      requires Valid()
      modifies this
      ensures Valid()
      ensures stakes == old(stakes) && referrerOf == old(referrerOf)
      ensures referrals == old(referrals) && referralRewards == old(referralRewards)
      ensures var u := PresaleRules.UpdateApy(old(config), apys);
              (u.Ok? ==> r == Pass && config == u.value) && (u.Err? ==> r == Fail(u.error) && config == old(config))
    {
      var u := PresaleRules.UpdateApy(config, apys);
      if u.Err? {
        return Fail(u.error);
      }
      config := u.value;
      r := Pass;
    }

    method UpdateLockPeriods(periods: Tiers) returns (r: Check)
      requires Valid()
      modifies this
      ensures Valid()
      ensures stakes == old(stakes) && referrerOf == old(referrerOf)
      ensures referrals == old(referrals) && referralRewards == old(referralRewards)
      ensures var u := PresaleRules.UpdateLockPeriods(old(config), periods);
              (u.Ok? ==> r == Pass && config == u.value) && (u.Err? ==> r == Fail(u.error) && config == old(config))
    {
      var u := PresaleRules.UpdateLockPeriods(config, periods);
      if u.Err? {
        return Fail(u.error);
      }
      config := u.value;
      r := Pass;
    }

    method UpdateMinStakeAmount(v: nat) returns (r: Check)
      requires Valid()
      modifies this
      ensures Valid()
      ensures stakes == old(stakes) && referrerOf == old(referrerOf)
      ensures referrals == old(referrals) && referralRewards == old(referralRewards)
      ensures var u := PresaleRules.UpdateMinStakeAmount(old(config), v);
              (u.Ok? ==> r == Pass && config == u.value) && (u.Err? ==> r == Fail(u.error) && config == old(config))
    {
      var u := PresaleRules.UpdateMinStakeAmount(config, v);
      if u.Err? {
        return Fail(u.error);
      }
      config := u.value;
      r := Pass;
    }

    method UpdateMaxStakeAmount(v: nat) returns (r: Check)
      requires Valid()
      modifies this
      ensures Valid()
      ensures stakes == old(stakes) && referrerOf == old(referrerOf)
      ensures referrals == old(referrals) && referralRewards == old(referralRewards)
      ensures var u := PresaleRules.UpdateMaxStakeAmount(old(config), v);
              (u.Ok? ==> r == Pass && config == u.value) && (u.Err? ==> r == Fail(u.error) && config == old(config))
    {
      var u := PresaleRules.UpdateMaxStakeAmount(config, v);
      if u.Err? {
        return Fail(u.error);
      }
      config := u.value;
      r := Pass;
    }

    method UpdateMinimumStakeAmounts(minimums: Tiers) returns (r: Check)
      requires Valid()
      modifies this
      ensures Valid()
      ensures stakes == old(stakes) && referrerOf == old(referrerOf)
      ensures referrals == old(referrals) && referralRewards == old(referralRewards)
      ensures var u := PresaleRules.UpdateMinimumStakeAmounts(old(config), minimums);
              (u.Ok? ==> r == Pass && config == u.value) && (u.Err? ==> r == Fail(u.error) && config == old(config))
    {
      var u := PresaleRules.UpdateMinimumStakeAmounts(config, minimums);
      if u.Err? {
        return Fail(u.error);
      }
      config := u.value;
      r := Pass;
    }

    method UpdateTokenPrices(bnb: nat, usdt: nat, now: nat)
      requires Valid()
      modifies this
      ensures Valid()
      ensures stakes == old(stakes) && referrerOf == old(referrerOf)
      ensures referrals == old(referrals) && referralRewards == old(referralRewards)
      ensures config == PresaleRules.UpdateTokenPrices(old(config), bnb, usdt, now)
      ensures CurrentTokenPrice(Bnb, now) == bnb && CurrentTokenPrice(Usdt, now) == usdt
    {
      config := PresaleRules.UpdateTokenPrices(config, bnb, usdt, now);
    }
  }
}
