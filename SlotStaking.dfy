/** The fixed-slot revision of the staking contract: every staker owns exactly one
    slot per stake plan (three plans), and each plan carries its own APY (a
    percentage with 18 decimals), lock duration and minimum. The staked amount is
    bought with an invest token at an injected token price. */
module SlotStaking {
  import opened Base

  const PLAN_COUNT: nat := 3
  /** A withdrawal may release at most 10000 / 100000, a tenth, of the staked amount. */
  const WITHDRAW_SHARE_NUMERATOR: nat := 10000
  const WITHDRAW_SHARE_DENOMINATOR: nat := 100000

  /** One slot of getStakerInfo's Stake[3]. */
  datatype Slot = Slot(
    stakedAmount: nat,
    investedAmount: nat,
    stakeTime: nat,
    lastClaimTime: nat,
    lastWithdrawalTime: nat,
    totalWithdrawnAmount: nat)

  const EMPTY_SLOT: Slot := Slot(0, 0, 0, 0, 0, 0)

  datatype StakePlan = StakePlan(apy: nat, lockDuration: nat, minStakeAmount: nat)

  /** getStakerInfo: referrer, running totals and the three slots. */
  datatype StakerInfo = StakerInfo(
    referrer: Address,
    totalStakedAmount: nat,
    totalInvestedAmount: nat,
    stakes: seq<Slot>)

  const NEW_STAKER: StakerInfo := StakerInfo(ZERO_ADDRESS, 0, 0, [EMPTY_SLOT, EMPTY_SLOT, EMPTY_SLOT])

  /** The revision's custom errors. */
  datatype Error =
    | InvalidStakePlanIndex   // INVALID_STAKE_PLAN_INDEX_ERROR
    | AlreadyStaked           // ALREADY_STAKE_ERROR
    | MinStakeAmount          // MIN_STAKE_AMOUNT_ERROR
    | CircularReferral        // CIRCULAR_REFERRAL_ERROR
    | NoAmountToWithdraw      // NO_AMOUNT_TO_WITHDRAW_ERROR
    | WithdrawLocked          // WITHDRAW_LOCKED_ERROR
    | AlreadyWithdrawn        // ALREADY_WITHDRAWN_ERROR

  datatype Outcome = Done | Failed(error: Error)

  function SumStaked(ss: seq<Slot>): nat {
    if ss == [] then 0 else SumStaked(ss[..|ss| - 1]) + ss[|ss| - 1].stakedAmount
  }

  /** The well-formedness of one staker's record. */
  ghost predicate StakerValid(info: StakerInfo) {
    && |info.stakes| == PLAN_COUNT
    && info.totalStakedAmount == SumStaked(info.stakes)
    && forall i | 0 <= i < |info.stakes| :: info.stakes[i].totalWithdrawnAmount <= info.stakes[i].stakedAmount
  }

  // ---------------------------------------------------------------------------
  // Withdrawal rule: the principal is released a tenth at a time, at most once a
  // week, once the plan's lock duration has passed since the stake.
  // ---------------------------------------------------------------------------

  function LockEnd(slot: Slot, plan: StakePlan): nat {
    slot.stakeTime + plan.lockDuration
  }

  predicate LockEnded(slot: Slot, plan: StakePlan, now: nat) {
    now >= LockEnd(slot, plan)
  }

  predicate WeekPassed(slot: Slot, now: nat) {
    now >= slot.lastWithdrawalTime + WEEK
  }

  /** What may be withdrawn next: a tenth of the staked amount, but no more than
      what remains. The remainder is an int because nothing in the record keeps
      the withdrawn total at or below the staked amount. */
  function Withdrawable(slot: Slot): (w: int)
    ensures w <= slot.stakedAmount - slot.totalWithdrawnAmount
    ensures w <= slot.stakedAmount / 10
    ensures w == slot.stakedAmount / 10 || w == slot.stakedAmount - slot.totalWithdrawnAmount
  {
    Min(slot.stakedAmount * WITHDRAW_SHARE_NUMERATOR / WITHDRAW_SHARE_DENOMINATOR,
        slot.stakedAmount - slot.totalWithdrawnAmount)
  }

  /** withdraw(planIndex) on one slot: on success the updated slot and the amount paid. */
  function WithdrawSlot(slot: Slot, plan: StakePlan, now: nat): (r: Result<(Slot, nat), Error>)
    ensures r.Ok? <==>
      && slot.stakedAmount > 0 && LockEnded(slot, plan, now) && WeekPassed(slot, now)
      && slot.totalWithdrawnAmount < slot.stakedAmount && Withdrawable(slot) > 0
    ensures r.Ok? ==>
      && r.value.1 == Withdrawable(slot)
      && r.value.0 == slot.(totalWithdrawnAmount := slot.totalWithdrawnAmount + r.value.1, lastWithdrawalTime := now)
      && r.value.0.totalWithdrawnAmount <= slot.stakedAmount
    ensures slot.stakedAmount > 0 && !(LockEnded(slot, plan, now) && WeekPassed(slot, now)) ==>
      r == Err(WithdrawLocked)
  {
    if slot.stakedAmount == 0 then Err(NoAmountToWithdraw)
    else if !LockEnded(slot, plan, now) || !WeekPassed(slot, now) then Err(WithdrawLocked)
    else if slot.totalWithdrawnAmount >= slot.stakedAmount then Err(AlreadyWithdrawn)
    else
      var amount := Withdrawable(slot);
      if amount <= 0 then Err(NoAmountToWithdraw)
      else Ok((slot.(totalWithdrawnAmount := slot.totalWithdrawnAmount + amount, lastWithdrawalTime := now), amount as nat))
  }

  /** The tokens bought by `investAmount` at `tokenPrice` invest units per whole token. */
  function StakedFor(investAmount: nat, tokenPrice: nat): nat
    requires tokenPrice > 0
  {
    investAmount * ONE_TOKEN / tokenPrice
  }

  lemma NewStakerValid()
    ensures StakerValid(NEW_STAKER)
  {
    var ss := NEW_STAKER.stakes;
    assert ss[..2] == [EMPTY_SLOT, EMPTY_SLOT] && ss[..2][..1] == [EMPTY_SLOT] && ss[..2][..1][..0] == [];
    assert SumStaked([EMPTY_SLOT]) == 0;
    assert SumStaked([EMPTY_SLOT, EMPTY_SLOT]) == 0;
  }

  lemma SumStakedUpdate(ss: seq<Slot>, i: nat, s: Slot)
    requires i < |ss|
    ensures SumStaked(ss[i := s]) == SumStaked(ss) - ss[i].stakedAmount + s.stakedAmount
  {
    if i < |ss| - 1 {
      assert ss[i := s][..|ss| - 1] == ss[..|ss| - 1][i := s];
      SumStakedUpdate(ss[..|ss| - 1], i, s);
    } else {
      assert ss[i := s][..|ss| - 1] == ss[..|ss| - 1];
    }
  }

  class SlotLedger {
    var plans: seq<StakePlan>
    var stakers: map<Address, StakerInfo>

    ghost predicate Valid()
      reads this
    {
      && |plans| == PLAN_COUNT
      && forall u | u in stakers :: StakerValid(stakers[u])
    }

    /** stakePlans(i): reading past the last plan fails. */
    function StakePlans(index: nat): (r: Result<StakePlan, Error>)
      reads this
      ensures r.Ok? <==> index < |plans|
      ensures r.Ok? ==> r.value == plans[index]
    {
      if index < |plans| then Ok(plans[index]) else Err(InvalidStakePlanIndex)
    }

    /** getStakerInfo: an unknown address reads as a record of zeros. */
    function StakerInfoOf(user: Address): (info: StakerInfo)
      reads this
      ensures user !in stakers ==> info == NEW_STAKER
      ensures Valid() ==> StakerValid(info)
    {
      if user in stakers then stakers[user] else NewStakerValid(); NEW_STAKER
    }

    constructor(initialPlans: seq<StakePlan>)
      requires |initialPlans| == PLAN_COUNT
      ensures Valid()
      ensures plans == initialPlans && stakers == map[]
    {
      plans := initialPlans;
      stakers := map[];
    }

    /** setStakePlan: replace one plan. */
    method SetStakePlan(index: nat, plan: StakePlan) returns (r: Outcome)
      requires Valid()
      modifies this
      ensures Valid() && stakers == old(stakers)
      ensures index >= PLAN_COUNT ==> r == Failed(InvalidStakePlanIndex) && plans == old(plans)
      ensures index < PLAN_COUNT ==> r == Done && plans == old(plans)[index := plan]
    {
      if index >= PLAN_COUNT {
        return Failed(InvalidStakePlanIndex);
      }
      plans := plans[index := plan];
      r := Done;
    }

    /** stake(investAmount, planIndex, referrer): buy tokens at `tokenPrice` into the
        plan's slot, which must be empty; the first non-zero referrer is recorded. */
    method Stake(user: Address, investAmount: nat, planIndex: nat, referrer: Address,
                 tokenPrice: nat, now: nat) returns (r: Result<nat, Error>)
      requires Valid() && tokenPrice > 0
      modifies this
      ensures Valid() && plans == old(plans)
      ensures planIndex >= PLAN_COUNT ==> r == Err(InvalidStakePlanIndex)
      ensures r.Err? ==> stakers == old(stakers)
      ensures planIndex < PLAN_COUNT ==>
        var info := old(StakerInfoOf(user));
        var staked := StakedFor(investAmount, tokenPrice);
        && (staked < old(plans)[planIndex].minStakeAmount ==> r == Err(MinStakeAmount))
        && (r.Ok? <==>
              staked >= old(plans)[planIndex].minStakeAmount
              && info.stakes[planIndex].stakedAmount == 0 && referrer != user)
        && (r.Ok? ==>
              && r.value == staked
              && stakers == old(stakers)[user := StakerInfo(
                   if info.referrer == ZERO_ADDRESS then referrer else info.referrer,
                   info.totalStakedAmount + staked,
                   info.totalInvestedAmount + investAmount,
                   info.stakes[planIndex := Slot(staked, investAmount, now, now, now, 0)])])
    {
      if planIndex >= PLAN_COUNT {
        return Err(InvalidStakePlanIndex);
      }
      var staked := StakedFor(investAmount, tokenPrice);
      if staked < plans[planIndex].minStakeAmount {
        return Err(MinStakeAmount);
      }
      var info := StakerInfoOf(user);
      NewStakerValid();
      assert StakerValid(info);
      if info.stakes[planIndex].stakedAmount > 0 {
        return Err(AlreadyStaked);
      }
      if referrer == user {
        return Err(CircularReferral);
      }
      var slot := Slot(staked, investAmount, now, now, now, 0);
      SumStakedUpdate(info.stakes, planIndex, slot);
      var info' := StakerInfo(
        if info.referrer == ZERO_ADDRESS then referrer else info.referrer,
        info.totalStakedAmount + staked,
        info.totalInvestedAmount + investAmount,
        info.stakes[planIndex := slot]);
      stakers := stakers[user := info'];
      r := Ok(staked);
    }

    /** withdraw(planIndex): release the next tenth of one slot's principal. */
    method Withdraw(user: Address, planIndex: nat, now: nat) returns (r: Result<nat, Error>)
      requires Valid()
      modifies this
      ensures Valid() && plans == old(plans)
      ensures planIndex >= PLAN_COUNT ==> r == Err(InvalidStakePlanIndex) && stakers == old(stakers)
      ensures planIndex < PLAN_COUNT ==>
        var info := old(StakerInfoOf(user));
        var step := WithdrawSlot(info.stakes[planIndex], old(plans)[planIndex], now);
        && (step.Err? ==> r == Err(step.error) && stakers == old(stakers))
        && (step.Ok? ==>
              r == Ok(step.value.1) &&
              stakers == old(stakers)[user := info.(stakes := info.stakes[planIndex := step.value.0])])
    {
      if planIndex >= PLAN_COUNT {
        return Err(InvalidStakePlanIndex);
      }
      var info := StakerInfoOf(user);
      NewStakerValid();
      assert StakerValid(info);
      var step := WithdrawSlot(info.stakes[planIndex], plans[planIndex], now);
      if step.Err? {
        return Err(step.error);
      }
      var (slot', paid) := step.value;
      SumStakedUpdate(info.stakes, planIndex, slot');
      stakers := stakers[user := info.(stakes := info.stakes[planIndex := slot'])];
      r := Ok(paid);
    }
  }

  // ---------------------------------------------------------------------------
  // The suite's scenario: plan 0 set to 80 % APY, a 30-day lock and a 100-token
  // minimum; a user stakes 1000 invest units at a price of one unit per token,
  // and after four weeks and two days withdraws once a week, ten times.
  // ---------------------------------------------------------------------------

  const USER1: Address := 1
  const ONE_MONTH_PLAN: StakePlan := StakePlan(80 * ONE_TOKEN, 30 * DAY, 100 * ONE_TOKEN)
  const INVEST_AMOUNT: nat := 1000 * ONE_TOKEN

  /** The scenario's setup: plan 0 configured and USER1's stake in it at `t0`. */
  method StakeScenario(t0: nat) returns (ledger: SlotLedger, info: StakerInfo)
    ensures fresh(ledger) && ledger.Valid() && ledger.plans[0] == ONE_MONTH_PLAN
    ensures USER1 in ledger.stakers && info == ledger.stakers[USER1]
    ensures info.referrer == ZERO_ADDRESS
    ensures info.totalStakedAmount == INVEST_AMOUNT && info.totalInvestedAmount == INVEST_AMOUNT
    ensures |info.stakes| == PLAN_COUNT && info.stakes[0] == Slot(INVEST_AMOUNT, INVEST_AMOUNT, t0, t0, t0, 0)
  {
    ledger := new SlotLedger([EMPTY_PLAN, EMPTY_PLAN, EMPTY_PLAN]);
    var planSet := ledger.SetStakePlan(0, ONE_MONTH_PLAN);
    var staked := ledger.Stake(USER1, INVEST_AMOUNT, 0, ZERO_ADDRESS, ONE_TOKEN, t0);
    assert INVEST_AMOUNT * ONE_TOKEN / ONE_TOKEN == INVEST_AMOUNT;
    info := ledger.StakerInfoOf(USER1);
  }

  method WeeklyWithdrawScenario(t0: nat) returns (info: StakerInfo, payouts: seq<Result<nat, Error>>)
    ensures info.referrer == ZERO_ADDRESS
    ensures info.totalStakedAmount == INVEST_AMOUNT && info.totalInvestedAmount == INVEST_AMOUNT
    ensures |info.stakes| == PLAN_COUNT && info.stakes[0] == Slot(INVEST_AMOUNT, INVEST_AMOUNT, t0, t0, t0, 0)
    ensures |payouts| == 10
    ensures forall i | 0 <= i < |payouts| :: payouts[i] == Ok(INVEST_AMOUNT / 10)
  {
    var ledger;
    ledger, info := StakeScenario(t0);
    var now := t0 + 4 * WEEK + 2 * DAY;
    payouts := [];
    var i := 0;
    while i < 10
      invariant 0 <= i <= 10
      invariant ledger.Valid() && ledger.plans[0] == ONE_MONTH_PLAN
      invariant USER1 in ledger.stakers
      invariant now == t0 + 4 * WEEK + 2 * DAY + i * WEEK
      invariant ledger.stakers[USER1].stakes[0] ==
        Slot(INVEST_AMOUNT, INVEST_AMOUNT, t0, t0, if i == 0 then t0 else now - WEEK, i * (INVEST_AMOUNT / 10))
      invariant |payouts| == i
      invariant forall k | 0 <= k < i :: payouts[k] == Ok(INVEST_AMOUNT / 10)
    {
      var r := ledger.Withdraw(USER1, 0, now);
      payouts := payouts + [r];
      now := now + WEEK;
      i := i + 1;
    }
  }

  const EMPTY_PLAN: StakePlan := StakePlan(0, 0, 0)
}
