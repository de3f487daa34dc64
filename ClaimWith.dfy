/** The claim page's withdrawal panel: from the staker record and the selected
    plan it decides whether the withdraw button may fire, how much the next
    withdrawal releases, and when the next one becomes possible. The wall clock
    (in seconds) is a parameter; a missing contract read is `None`. */
module ClaimWith {
  import opened Base
  import opened SlotStaking

  const MS_PER_SECOND: nat := 1000

  /** withdrawalInfo. `lockEnded` and `weekPassed` are absent from the early
      returns of the source, which reads them as false. */
  datatype WithdrawalInfo = WithdrawalInfo(
    canWithdraw: bool,
    withdrawableAmount: int,
    nextWithdrawTime: Option<nat>,   // milliseconds since the epoch
    lockEnded: bool,
    weekPassed: bool)

  const NOTHING_TO_WITHDRAW: WithdrawalInfo := WithdrawalInfo(false, 0, None, false, false)

  /** The slot of the selected plan, if the staker record has one. */
  function SelectedSlot(stakerInfo: Option<StakerInfo>, selectedPlan: nat): Option<Slot> {
    if stakerInfo.None? || selectedPlan >= |stakerInfo.value.stakes| then None
    else Some(stakerInfo.value.stakes[selectedPlan])
  }

  function WithdrawalInfoOf(stakerInfo: Option<StakerInfo>, plan: Option<StakePlan>,
                            selectedPlan: nat, now: nat): (w: WithdrawalInfo)
    ensures stakerInfo.None? || plan.None? ==> w == NOTHING_TO_WITHDRAW
    ensures SelectedSlot(stakerInfo, selectedPlan).None? ==> w == NOTHING_TO_WITHDRAW
    ensures (SelectedSlot(stakerInfo, selectedPlan).Some? &&
             SelectedSlot(stakerInfo, selectedPlan).value.stakedAmount == 0) ==> w == NOTHING_TO_WITHDRAW
    ensures w.withdrawableAmount != 0 ==>
      var slot := SelectedSlot(stakerInfo, selectedPlan).value;
      plan.Some? && w.withdrawableAmount == Withdrawable(slot) &&
      w.withdrawableAmount <= slot.stakedAmount - slot.totalWithdrawnAmount
  {
    if stakerInfo.None? || plan.None? then NOTHING_TO_WITHDRAW
    else
      var slotOpt := SelectedSlot(stakerInfo, selectedPlan);
      if slotOpt.None? || slotOpt.value.stakedAmount == 0 then NOTHING_TO_WITHDRAW
      else
        var slot := slotOpt.value;
        var lockEndTime := LockEnd(slot, plan.value);
        var lockEnded := LockEnded(slot, plan.value, now);
        var weekPassed := WeekPassed(slot, now);
        var actual := Withdrawable(slot);
        var next :=
          if !weekPassed && lockEnded then Some((slot.lastWithdrawalTime + WEEK) * MS_PER_SECOND)
          else if !lockEnded then Some(lockEndTime * MS_PER_SECOND)
          else None;
        WithdrawalInfo(lockEnded && weekPassed && actual > 0, actual, next, lockEnded, weekPassed)
  }

  /** A request to the staking contract. */
  datatype ContractCall = WithdrawCall(planIndex: nat)

  /** handleWithdraw: a withdrawal is sent only when the panel allows it, for the selected plan. */
  function HandleWithdraw(info: WithdrawalInfo, selectedPlan: nat): (call: Option<ContractCall>)
    ensures call.Some? <==> info.canWithdraw
    ensures call.Some? ==> call.value == WithdrawCall(selectedPlan)
  {
    if !info.canWithdraw then None else Some(WithdrawCall(selectedPlan))
  }

  // ---------------------------------------------------------------------------
  // Properties
  // ---------------------------------------------------------------------------

  /** The button is enabled exactly when the lock is over, a week has passed since
      the last withdrawal, and something is left to release. */
  lemma CanWithdrawExactly(info: StakerInfo, plan: StakePlan, selectedPlan: nat, now: nat)
    requires selectedPlan < |info.stakes|
    ensures var slot := info.stakes[selectedPlan];
            WithdrawalInfoOf(Some(info), Some(plan), selectedPlan, now).canWithdraw <==>
              slot.stakedAmount > 0 && LockEnded(slot, plan, now) && WeekPassed(slot, now) && Withdrawable(slot) > 0
  {
  }

  /** The panel allows a withdrawal exactly when the contract's withdraw of that
      plan succeeds, and it shows the amount the contract pays. */
  lemma PanelAgreesWithContract(info: StakerInfo, plan: StakePlan, selectedPlan: nat, now: nat)
    requires selectedPlan < |info.stakes|
    ensures var w := WithdrawalInfoOf(Some(info), Some(plan), selectedPlan, now);
            var step := WithdrawSlot(info.stakes[selectedPlan], plan, now);
            && (w.canWithdraw <==> step.Ok?)
            && (step.Ok? ==> w.withdrawableAmount == step.value.1)
  {
  }

  /** When a next withdrawal time is shown it lies strictly in the future, and it is
      shown exactly when the withdrawal is held back by the lock or the weekly limit. */
  lemma NextWithdrawTimeInFuture(info: StakerInfo, plan: StakePlan, selectedPlan: nat, now: nat)
    requires selectedPlan < |info.stakes| && info.stakes[selectedPlan].stakedAmount > 0
    ensures var w := WithdrawalInfoOf(Some(info), Some(plan), selectedPlan, now);
            && (w.nextWithdrawTime.Some? <==> !(w.lockEnded && w.weekPassed))
            && (w.nextWithdrawTime.Some? ==> w.nextWithdrawTime.value > now * MS_PER_SECOND)
            && (!w.lockEnded ==> w.nextWithdrawTime == Some(LockEnd(info.stakes[selectedPlan], plan) * MS_PER_SECOND))
            && (w.lockEnded && !w.weekPassed ==>
                  w.nextWithdrawTime == Some((info.stakes[selectedPlan].lastWithdrawalTime + WEEK) * MS_PER_SECOND))
  {
  }

  /** A slot of at least ten units with nothing withdrawn yet can be withdrawn from
      once both gates are open, and the first withdrawal releases a tenth of it. */
  lemma FirstWithdrawalAfterLock(info: StakerInfo, plan: StakePlan, selectedPlan: nat, now: nat)
    requires selectedPlan < |info.stakes|
    requires info.stakes[selectedPlan].stakedAmount >= 10 && info.stakes[selectedPlan].totalWithdrawnAmount == 0
    requires LockEnded(info.stakes[selectedPlan], plan, now) && WeekPassed(info.stakes[selectedPlan], now)
    ensures WithdrawalInfoOf(Some(info), Some(plan), selectedPlan, now).canWithdraw
    ensures WithdrawalInfoOf(Some(info), Some(plan), selectedPlan, now).withdrawableAmount
            == info.stakes[selectedPlan].stakedAmount / 10
  {
  }
}
