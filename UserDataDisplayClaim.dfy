/** The claim page's staker summary and per-slot withdraw list: totals over the
    active slots, one row per active slot with its withdraw button and status
    line, and the guard that keeps at most one withdrawal in flight. Clocks are
    parameters: `now` is the wall clock read when a row is checked, and
    `displayTime` the clock the page refreshes every five seconds. */
module UserDataDisplayClaim {
  import opened Base
  import opened SlotStaking
  import ClaimWith

  // ---------------------------------------------------------------------------
  // Totals over the active slots
  // ---------------------------------------------------------------------------

  /** The slots of a staker record that may not have loaded yet. */
  function StakesOf(stakerInfo: Option<StakerInfo>): seq<Slot> {
    if stakerInfo.Some? then stakerInfo.value.stakes else []
  }

  /** How many slots hold a stake. */
  function CountActive(ss: seq<Slot>): (n: nat)
    ensures n <= |ss|
  {
    if ss == [] then 0
    else CountActive(ss[..|ss| - 1]) + (if ss[|ss| - 1].stakedAmount > 0 then 1 else 0)
  }

  /** The next withdrawal of every active slot, added up. */
  function SumWithdrawableActive(ss: seq<Slot>): int {
    if ss == [] then 0
    else
      var last := ss[|ss| - 1];
      SumWithdrawableActive(ss[..|ss| - 1]) + (if last.stakedAmount > 0 then Withdrawable(last) else 0)
  }

  /** What has been withdrawn from the active slots, added up. */
  function SumWithdrawnActive(ss: seq<Slot>): nat {
    if ss == [] then 0
    else
      var last := ss[|ss| - 1];
      SumWithdrawnActive(ss[..|ss| - 1]) + (if last.stakedAmount > 0 then last.totalWithdrawnAmount else 0)
  }

  /** processedData, without the balance and the decimal formatting. */
  datatype ProcessedData = ProcessedData(
    totalStakedAmount: nat,
    totalInvestedAmount: nat,
    activeStakes: nat,
    totalWithdrawable: int,
    totalWithdrawn: nat,
    stakes: seq<Slot>,
    hasReferrer: bool)

  /** The summary of a staker record. A record that has not loaded reads as having
      a referrer, because the source compares the missing value with the zero
      address and finds them different. */
  method ProcessStakerInfo(stakerInfo: Option<StakerInfo>) returns (d: ProcessedData)
    ensures d.stakes == StakesOf(stakerInfo)
    ensures d.totalStakedAmount == (if stakerInfo.Some? then stakerInfo.value.totalStakedAmount else 0)
    ensures d.totalInvestedAmount == (if stakerInfo.Some? then stakerInfo.value.totalInvestedAmount else 0)
    ensures d.activeStakes == CountActive(d.stakes)
    ensures d.totalWithdrawable == SumWithdrawableActive(d.stakes)
    ensures d.totalWithdrawn == SumWithdrawnActive(d.stakes)
    ensures d.hasReferrer <==> stakerInfo.None? || stakerInfo.value.referrer != ZERO_ADDRESS
  {
    var stakes := StakesOf(stakerInfo);
    var totalStaked := if stakerInfo.Some? then stakerInfo.value.totalStakedAmount else 0;
    var totalInvested := if stakerInfo.Some? then stakerInfo.value.totalInvestedAmount else 0;
    var totalWithdrawable := 0;
    var totalWithdrawn := 0;
    var i := 0;
    while i < |stakes|
      invariant 0 <= i <= |stakes|
      invariant totalWithdrawable == SumWithdrawableActive(stakes[..i])
      invariant totalWithdrawn == SumWithdrawnActive(stakes[..i])
    {
      var stake := stakes[i];
      if stake.stakedAmount > 0 {
        var remaining := stake.stakedAmount - stake.totalWithdrawnAmount;
        var weekly := stake.stakedAmount * WITHDRAW_SHARE_NUMERATOR / WITHDRAW_SHARE_DENOMINATOR;
        var actual := if weekly > remaining then remaining else weekly;
        totalWithdrawable := totalWithdrawable + actual;
        totalWithdrawn := totalWithdrawn + stake.totalWithdrawnAmount;
      }
      assert stakes[..i + 1][..i] == stakes[..i];
      i := i + 1;
    }
    assert stakes[..|stakes|] == stakes;
    var hasReferrer := stakerInfo.None? || stakerInfo.value.referrer != ZERO_ADDRESS;
    d := ProcessedData(totalStaked, totalInvested, CountActive(stakes), totalWithdrawable, totalWithdrawn, stakes, hasReferrer);
  }

  /** The withdrawable total never exceeds what is left in the active slots. */
  lemma {:induction false} WithdrawableWithinRemaining(ss: seq<Slot>)
    ensures SumWithdrawableActive(ss) <= SumStaked(ss) - SumWithdrawnActive(ss)
  {
    if ss != [] {
      WithdrawableWithinRemaining(ss[..|ss| - 1]);
    }
  }

  /** The withdrawable total is at most a tenth of everything staked. */
  lemma {:induction false} WithdrawableAtMostTenth(ss: seq<Slot>)
    ensures 10 * SumWithdrawableActive(ss) <= SumStaked(ss)
  {
    if ss != [] {
      WithdrawableAtMostTenth(ss[..|ss| - 1]);
      var last := ss[|ss| - 1];
      assert 10 * (last.stakedAmount / 10) <= last.stakedAmount;
    }
  }

  /** On a well-formed record with nothing withdrawn yet, the displayed withdrawable
      total is the sum of a tenth of each slot. */
  lemma {:induction false} FreshWithdrawableIsTenths(ss: seq<Slot>)
    requires forall i | 0 <= i < |ss| :: ss[i].totalWithdrawnAmount == 0
    ensures SumWithdrawnActive(ss) == 0
    ensures SumWithdrawableActive(ss) == SumTenths(ss)
  {
    if ss != [] {
      FreshWithdrawableIsTenths(ss[..|ss| - 1]);
    }
  }

  /** A tenth of each slot, rounded down, added up. */
  function SumTenths(ss: seq<Slot>): nat {
    if ss == [] then 0 else SumTenths(ss[..|ss| - 1]) + ss[|ss| - 1].stakedAmount / 10
  }

  /** The displayed summary of a well-formed record is bounded by its staked total. */
  lemma SummaryWithinTotal(info: StakerInfo)
    requires StakerValid(info)
    ensures SumWithdrawableActive(info.stakes) + SumWithdrawnActive(info.stakes) <= info.totalStakedAmount
    ensures 10 * SumWithdrawableActive(info.stakes) <= info.totalStakedAmount
    ensures CountActive(info.stakes) <= PLAN_COUNT
  {
    WithdrawableWithinRemaining(info.stakes);
    WithdrawableAtMostTenth(info.stakes);
  }

  // ---------------------------------------------------------------------------
  // One row per active slot
  // ---------------------------------------------------------------------------

  /** canWithdrawFromStake. */
  function CanWithdrawFromStake(slot: Option<Slot>, plan: Option<StakePlan>, now: nat): (can: bool)
    ensures can ==>
      && slot.Some? && plan.Some? && LockEnded(slot.value, plan.value, now) && WeekPassed(slot.value, now)
      && slot.value.totalWithdrawnAmount < slot.value.stakedAmount
    ensures (slot.Some? && plan.Some? && slot.value.stakedAmount > 0 && LockEnded(slot.value, plan.value, now) &&
             WeekPassed(slot.value, now) && Withdrawable(slot.value) > 0) ==> can
  {
    if slot.None? || plan.None? || slot.value.stakedAmount == 0 then false
    else
      LockEnded(slot.value, plan.value, now) && WeekPassed(slot.value, now)
      && slot.value.stakedAmount > slot.value.totalWithdrawnAmount
  }

  /** The reason shown under a disabled button. */
  datatype WithdrawStatus = FullyWithdrawn | LockActive | WeeklyLimit

  /** The status line: none while the button is enabled. A plan that has not loaded
      counts as a lock of zero seconds. */
  function StatusMessage(slot: Slot, plan: Option<StakePlan>, canWithdraw: bool, displayTime: nat): (m: Option<WithdrawStatus>)
    ensures m.None? <==> canWithdraw
  {
    if canWithdraw then None
    else if slot.stakedAmount <= slot.totalWithdrawnAmount then Some(FullyWithdrawn)
    else if displayTime < slot.stakeTime + (if plan.Some? then plan.value.lockDuration else 0) then Some(LockActive)
    else Some(WeeklyLimit)
  }

  datatype StakeRow = StakeRow(index: nat, canWithdraw: bool, actualWithdrawable: int, status: Option<WithdrawStatus>)

  /** The plan read for slot `i`, if that read returned a result. */
  function PlanAt(plans: seq<Option<StakePlan>>, i: nat): Option<StakePlan> {
    if i < |plans| then plans[i] else None
  }

  function RowOf(slot: Slot, index: nat, plan: Option<StakePlan>, now: nat, displayTime: nat): StakeRow {
    var can := CanWithdrawFromStake(Some(slot), plan, now);
    StakeRow(index, can, Withdrawable(slot), StatusMessage(slot, plan, can, displayTime))
  }

  /** The rendered list: empty slots are skipped and every other slot gets its row,
      in slot order. */
  function Rows(ss: seq<Slot>, plans: seq<Option<StakePlan>>, now: nat, displayTime: nat): (rows: seq<StakeRow>)
    ensures |rows| == CountActive(ss)
    ensures forall k | 0 <= k < |rows| ::
      && rows[k].index < |ss| && ss[rows[k].index].stakedAmount > 0
      && rows[k] == RowOf(ss[rows[k].index], rows[k].index, PlanAt(plans, rows[k].index), now, displayTime)
    ensures forall k, l | 0 <= k < l < |rows| :: rows[k].index < rows[l].index
  {
    if ss == [] then []
    else
      var n := |ss| - 1;
      Rows(ss[..n], plans, now, displayTime)
        + (if ss[n].stakedAmount > 0 then [RowOf(ss[n], n, PlanAt(plans, n), now, displayTime)] else [])
  }

  /** Every active slot has its row. */
  lemma {:induction false} RowsComplete(ss: seq<Slot>, plans: seq<Option<StakePlan>>, now: nat, displayTime: nat, i: nat)
    requires i < |ss| && ss[i].stakedAmount > 0
    ensures exists k | 0 <= k < |Rows(ss, plans, now, displayTime)| :: Rows(ss, plans, now, displayTime)[k].index == i
  {
    var n := |ss| - 1;
    var rows := Rows(ss, plans, now, displayTime);
    if i == n {
      assert rows[|rows| - 1].index == i;
    } else {
      RowsComplete(ss[..n], plans, now, displayTime, i);
      var k :| 0 <= k < |Rows(ss[..n], plans, now, displayTime)| && Rows(ss[..n], plans, now, displayTime)[k].index == i;
      assert rows[k] == Rows(ss[..n], plans, now, displayTime)[k];
    }
  }

  /** With the plan loaded and one clock, the button is enabled exactly when the lock
      is over, a week has passed and something remains; otherwise the status line
      names the reason truthfully. */
  lemma StatusTruthful(slot: Slot, plan: StakePlan, now: nat)
    requires slot.stakedAmount > 0
    ensures var can := CanWithdrawFromStake(Some(slot), Some(plan), now);
            var m := StatusMessage(slot, Some(plan), can, now);
            && (can <==> LockEnded(slot, plan, now) && WeekPassed(slot, now) && slot.stakedAmount > slot.totalWithdrawnAmount)
            && (m == Some(FullyWithdrawn) <==> slot.stakedAmount <= slot.totalWithdrawnAmount)
            && (m == Some(LockActive) <==> slot.stakedAmount > slot.totalWithdrawnAmount && !LockEnded(slot, plan, now))
            && (m == Some(WeeklyLimit) <==>
                  slot.stakedAmount > slot.totalWithdrawnAmount && LockEnded(slot, plan, now) && !WeekPassed(slot, now))
  {
  }

  /** Before the plan has loaded, the button stays disabled and the status line blames
      the weekly limit once the stake time has passed, whatever the real lock. */
  lemma StatusWithoutPlan(slot: Slot, now: nat, displayTime: nat)
    requires slot.stakedAmount > slot.totalWithdrawnAmount && displayTime >= slot.stakeTime
    ensures !CanWithdrawFromStake(Some(slot), None, now)
    ensures StatusMessage(slot, None, false, displayTime) == Some(WeeklyLimit)
  {
  }

  /** The list row and the withdrawal panel agree whenever a tenth of the slot is at
      least one unit. */
  lemma ListAgreesWithPanel(info: StakerInfo, plan: StakePlan, i: nat, now: nat)
    requires i < |info.stakes| && info.stakes[i].stakedAmount >= 10
    ensures CanWithdrawFromStake(Some(info.stakes[i]), Some(plan), now)
            == ClaimWith.WithdrawalInfoOf(Some(info), Some(plan), i, now).canWithdraw
    ensures CanWithdrawFromStake(Some(info.stakes[i]), Some(plan), now)
            <==> WithdrawSlot(info.stakes[i], plan, now).Ok?
  {
  }

  /** Below ten units the list enables a withdrawal that the panel refuses and the
      contract rejects: a tenth of five units rounds down to nothing. */
  lemma ListEnablesEmptyWithdrawal()
    ensures var slot := Slot(5, 5, 0, 0, 0, 0);
            var info := StakerInfo(ZERO_ADDRESS, 5, 5, [slot, EMPTY_SLOT, EMPTY_SLOT]);
            var plan := StakePlan(0, 0, 0);
            && CanWithdrawFromStake(Some(slot), Some(plan), WEEK)
            && !ClaimWith.WithdrawalInfoOf(Some(info), Some(plan), 0, WEEK).canWithdraw
            && WithdrawSlot(slot, plan, WEEK) == Err(NoAmountToWithdraw)
  {
    var slot := Slot(5, 5, 0, 0, 0, 0);
    assert Withdrawable(slot) == 0;
  }

  // ---------------------------------------------------------------------------
  // The withdraw button and the in-flight guard
  // ---------------------------------------------------------------------------

  const NO_PENDING: int := -1

  /** A row's button is disabled when the row cannot withdraw, when this row's
      withdrawal is pending, or while any sent withdrawal is being confirmed. */
  function ButtonDisabled(canWithdraw: bool, pendingIndex: int, index: nat, txHash: Option<nat>, confirming: bool): (disabled: bool)
    ensures !disabled ==> canWithdraw && pendingIndex != index
    ensures txHash.Some? && confirming ==> disabled
    ensures canWithdraw && pendingIndex != index && !(txHash.Some? && confirming) ==> !disabled
  {
    !canWithdraw || pendingIndex == index || (txHash.Some? && confirming)
  }

  /** The page state behind handleWithdrawStake: the slot index whose withdrawal is
      in flight (or NO_PENDING) and the hash of the sent transaction. */
  class WithdrawGuard {
    var pendingIndex: int
    var txHash: Option<nat>

    /** A hash is only ever held for a pending withdrawal. */
    ghost predicate Valid()
      reads this
    {
      pendingIndex >= NO_PENDING && (txHash.Some? ==> pendingIndex != NO_PENDING)
    }

    predicate Busy()
      reads this
    {
      pendingIndex != NO_PENDING
    }

    constructor()
      ensures Valid() && pendingIndex == NO_PENDING && txHash == None
    {
      pendingIndex := NO_PENDING;
      txHash := None;
    }

    /** A click on slot `index`: ignored while another withdrawal is pending;
        otherwise that slot becomes pending and its withdrawal is sent. */
    method HandleWithdrawStake(index: nat) returns (call: Option<ClaimWith.ContractCall>)
      requires Valid()
      modifies this
      ensures Valid() && txHash == old(txHash)
      ensures old(Busy()) ==> call == None && pendingIndex == old(pendingIndex)
      ensures !old(Busy()) ==> call == Some(ClaimWith.WithdrawCall(index)) && pendingIndex == index
      ensures call.Some? ==> forall can: bool, c: bool :: ButtonDisabled(can, pendingIndex, index, txHash, c)
    {
      if pendingIndex != NO_PENDING {
        return None;
      }
      pendingIndex := index;
      call := Some(ClaimWith.WithdrawCall(index));
    }

    /** The wallet accepted the pending withdrawal; `hash` is what writeContract
        resolved to, `None` when it resolves to no hash. */
    method SubmissionAccepted(hash: Option<nat>)
      requires Valid() && Busy() && txHash.None?
      modifies this
      ensures Valid() && pendingIndex == old(pendingIndex) && txHash == hash
    {
      txHash := hash;
    }

    /** The wallet refused the pending withdrawal: the guard opens again. */
    method SubmissionFailed()
      requires Valid() && Busy() && txHash.None?
      modifies this
      ensures Valid() && !Busy() && txHash == None
    {
      pendingIndex := NO_PENDING;
    }

    /** The sent transaction was mined: the hash is cleared and the guard opens again. */
    method OnConfirmed()
      requires Valid() && txHash.Some?
      modifies this
      ensures Valid() && !Busy() && txHash == None
    {
      txHash := None;
      pendingIndex := NO_PENDING;
    }
  }

  /** Two clicks in a row send one withdrawal: the second finds the guard busy. */
  method DoubleClickSendsOnce(first: nat, second: nat) returns (sent: Option<ClaimWith.ContractCall>, ignored: Option<ClaimWith.ContractCall>)
    ensures sent == Some(ClaimWith.WithdrawCall(first)) && ignored == None
  {
    var guard := new WithdrawGuard();
    sent := guard.HandleWithdrawStake(first);
    ignored := guard.HandleWithdrawStake(second);
  }

  /** After a refused submission, or once the sent one is mined, the next click is sent. */
  method RetryAfterFailureOrConfirmation(index: nat, hash: nat) returns (retried: Option<ClaimWith.ContractCall>, next: Option<ClaimWith.ContractCall>)
    ensures retried == Some(ClaimWith.WithdrawCall(index)) && next == Some(ClaimWith.WithdrawCall(index))
  {
    var guard := new WithdrawGuard();
    var _ := guard.HandleWithdrawStake(index);
    guard.SubmissionFailed();
    retried := guard.HandleWithdrawStake(index);
    guard.SubmissionAccepted(Some(hash));
    guard.OnConfirmed();
    next := guard.HandleWithdrawStake(index);
  }

  /** A submission that resolves to no hash leaves nothing to wait for: no
      confirmation can reset the guard, so every later click is ignored. */
  method NoHashBlocksLaterClicks(index: nat, later: seq<nat>) returns (first: Option<ClaimWith.ContractCall>, answers: seq<Option<ClaimWith.ContractCall>>)
    ensures first == Some(ClaimWith.WithdrawCall(index))
    ensures |answers| == |later| && forall i | 0 <= i < |answers| :: answers[i] == None
  {
    var guard := new WithdrawGuard();
    first := guard.HandleWithdrawStake(index);
    guard.SubmissionAccepted(None);
    answers := [];
    var i := 0;
    while i < |later|
      invariant 0 <= i <= |later| && |answers| == i
      invariant guard.Valid() && guard.Busy() && guard.txHash == None
      invariant forall j | 0 <= j < i :: answers[j] == None
    {
      var a := guard.HandleWithdrawStake(later[i]);
      answers := answers + [a];
      i := i + 1;
    }
  }
}
