# Presale staking: a verified model

The repository is a presale website. At its centre are two revisions of a staking contract, and around them are several client components that read the contract's records and decide what to show.

- **The list revision** is known through its Hardhat suite (`src/contracts/PresaleStaking.ts`):
  - a buyer buys tokens with BNB or USDT at a price that rises every 120 days;
  - each purchase becomes a stake in one of three lock tiers, appended to the buyer's list;
  - a stake earns a weekly reward, capped at its lock end;
  - each claim credits two levels of referrers;
  - after the lock ends, the principal comes back ten percent per whole week;
  - the owner's setters validate their arguments before changing the configuration.
- **The fixed-slot revision** (`src/contracts/tests.js`) gives every staker exactly one slot per stake plan. A slot's principal is withdrawn a tenth at a time, at most once a week, after the plan's lock.
- **The client components:**
  - the claim panel (`ClaimWith.jsx`) decides whether the withdraw button fires and when the next withdrawal opens;
  - the claim-page summary (`UserDataDisplayClaim.jsx`) totals a staker's slots, lists them with a button and a status line each, and keeps one withdrawal in flight;
  - the dashboard (`UserDataDisplay.jsx`) builds the reward queries and totals for the list revision;
  - the presale countdown (`Countdown.jsx`) shows the time left.

The modules follow that structure:

- `Base`: addresses, `Option`, `Result`.
- `PresaleRules`: the list revision's configuration, its stake record and the pure rules, one function per contract entry point.
- `PresaleLedger`: the list revision as a class with the contract's mappings as fields.
- `PresaleProperties`: lemmas about price, reward, claim sequences and withdrawal sequences.
- `PresaleScenarios`: the suite's concrete expectations.
- `SlotStaking`: the fixed-slot revision as a class.
- `ClaimWith`, `UserDataDisplayClaim`, `UserDataDisplay`, `Countdown`: the client components.

Clocks (seconds for the contract, milliseconds for the countdown), contract balances, and the fixed-slot token price are parameters. A contract read that has not returned is `None`.

The suite fixes these readings of the contract:

- A withdrawal counts whole weeks since the lock end. `PresaleStaking.ts:2214-2236` makes one withdrawal ten weeks after the lock end, which releases everything and leaves the stake "Fully withdrawn". `withdrawalStartTime` is recorded (it is 0 on a new stake, `PresaleStaking.ts:1158`) but is not used in the computation.
- A claim pays the staker the whole reward. `PresaleStaking.ts:1553-1604` expects the staker's USDT balance to grow by the full weekly rate. The referrers' credits come on top: `PresaleStaking.ts:1788-1835` only expects the referrer's balance to grow.
- The owner's bounds are strict where the revert messages name a comparison:
  - the maximum must be strictly above the minimum ("Max must be greater than min", `PresaleStaking.ts:2773-2784`);
  - each tier minimum must exceed the previous one ("One year min must be greater than six months min", `PresaleStaking.ts:2849-2873`).

Some choices the suite leaves open are made here:

- The new global minimum must be positive and strictly below the maximum. The suite only rejects `0` and `maxStakeAmount + 1` with "Invalid min amount" (`PresaleStaking.ts:2723-2742`), which names no comparison. It leaves open whether a minimum equal to the maximum is accepted. The strict bound matches the strict comparisons that the other setters' messages name.

- A stake's reward looks up the APY by that stake's lock period, as `getAPY` does (`PresaleStaking.ts:2342-2370`). After the lock periods are changed, an older stake's reward therefore fails with "Invalid lock period".
- `updateTokenPrices` also moves the start of the price schedule to the time of the update. The suite reads the prices only right after the update (`PresaleStaking.ts:2890-2946`), so keeping the old start would pass it too. With the restart, the new price holds at any time before the next interval and not only at the moment of the update.
- `MAX_APY` = 12000 basis points.
- The lock-period windows: six months within [20, 32] weeks, one year within [45, 60] weeks, two years within [90, 120] weeks.
- A withdrawal from share `old` % to share `new` % pays `amount × new / 100 − amount × old / 100`: the principal released so far, less what was already paid. This equals `amount × (new − old) / 100` whenever 100 divides the amount or `old` is 0, which covers every withdrawal in the suite (`PresaleStaking.ts:2100-2338`). For other amounts the two differ: 55 base units going from 10 % to 20 % pay 6 here and 5 by the difference formula. The released-so-far form returns exactly the amount at 100 % for every amount, while ten steps of the difference formula return 50 of 55.

The constants agree with every accepted and rejected value in the suite.

The fixed-slot contract's `withdraw` is not in the repository. `SlotStaking.WithdrawSlot` reconstructs it from the client's eligibility rule and the revision's error names. A self-referral is the only circular referral it rejects.

## Model

| member | source | states |
|---|---|---|
| PresaleRules.InitialConfigValid | src/contracts/PresaleStaking.ts:43-53 | The deployed configuration (26/52/104-week locks, 8000/10000/12000 APY, tier minimums 3000/30000/300000, stake bounds 3000 to 1,000,000 tokens) satisfies the configuration invariant that every setter preserves. |
| PresaleRules.PriceAt | src/contracts/PresaleStaking.ts:437-472 | The price never falls below its base. |
| PresaleRules.CheckAdmission | src/contracts/PresaleStaking.ts:83-141 | A purchase passes exactly when the tier exists, the amount lies within the global and tier bounds, the referrer is not the buyer and the contract holds enough tokens. An unknown tier, an amount below the global minimum and an amount below the tier minimum are each reported exactly in their case; the other three failures are reported only when their rule is broken. |
| PresaleRules.NewStake | src/contracts/PresaleStaking.ts:1128-1163 | A new stake holds the amount, the tier's lock period and the referrer. Its start and its last claim time are the purchase time; it has claimed nothing, withdrawn nothing and has no withdrawal start; it ends its lock at purchase plus lock period, and is well-formed. |
| PresaleRules.ApyFor | src/contracts/PresaleStaking.ts:2342-2369 | getAPY succeeds exactly for the three configured lock periods, with that tier's APY, and otherwise fails "Invalid lock period". |
| PresaleRules.AccruedWeeks | src/contracts/PresaleStaking.ts:1400-1506 | The counted weeks are the largest number of whole weeks from the last claim that fit before both now and the lock end. |
| PresaleRules.StakeRewards | src/contracts/PresaleStaking.ts:1222-1398 | The reward is zero for a withdrawn stake or before a whole week. Otherwise it is amount × APY × weeks / (52 × 10000) with the APY of the stake's lock period, or "Invalid lock period" when that period is not a configured tier. No other failure occurs. |
| PresaleRules.ClaimStep | src/contracts/PresaleStaking.ts:1607-1785 | A withdrawn stake fails "Stake already withdrawn"; otherwise a claim within a week of the last one fails "Can claim rewards weekly"; "Insufficient USDT balance" is reported only when the reserve is below the reward. A claim succeeds exactly when the stake is open, a week has passed, its reward is known and the reserve covers it. A successful claim pays the stake's reward, adds it to claimedRewards, moves lastClaimTime to now and changes nothing else. |
| PresaleRules.CreditReferrers | src/contracts/PresaleStaking.ts:1789-1913 | The stake's referrer is credited 30 % of the reward. That referrer's own recorded referrer is credited 20 %. No other balance changes. |
| PresaleRules.UnlockedPercentage | src/contracts/PresaleStaking.ts:2133-2156 | The unlocked share is ten percent per whole week since the lock end, at most one hundred, and always a multiple of ten. |
| PresaleRules.WithdrawStep | src/contracts/PresaleStaking.ts:2197-2306 | A withdrawn stake fails "Fully withdrawn"; otherwise a stake still locked fails "Lock period not over"; "No new amount available" is reported only when the unlocked share does not exceed what was already withdrawn. On success the percentage rises to the unlocked share, the payout is the principal released between the old and new percentage, the stake is marked withdrawn exactly at 100 %, the withdrawal start is set by the first withdrawal and kept afterwards, nothing else changes, and the stake invariant is kept. |
| PresaleRules.UpdateApy | src/contracts/PresaleStaking.ts:2554-2607 | Succeeds exactly when every APY is at most the maximum. Then only the APYs change, and the configuration stays valid. |
| PresaleRules.UpdateLockPeriods | src/contracts/PresaleStaking.ts:2608-2694 | Succeeds exactly when each tier's period lies in its window, and then only the periods change. Otherwise it reports the first tier, in the order six months, one year, two years, whose period is out of its window. |
| PresaleRules.UpdateMinStakeAmount | src/contracts/PresaleStaking.ts:2695-2744 | Succeeds exactly when 0 < minimum < maximum, and then sets only the minimum. |
| PresaleRules.UpdateMaxStakeAmount | src/contracts/PresaleStaking.ts:2745-2786 | Succeeds exactly when the new maximum exceeds the minimum, and then sets only the maximum. |
| PresaleRules.UpdateMinimumStakeAmounts | src/contracts/PresaleStaking.ts:2787-2889 | Succeeds exactly when 0 < six-month < one-year < two-year < maximum. Then it sets the tier minimums and makes the global minimum the six-month one; otherwise it reports the first violated rule. |
| PresaleRules.UpdateTokenPrices | src/contracts/PresaleStaking.ts:2890-2946 | The next price read returns the new prices exactly, zero included. Restarting the schedule is the model's choice, described above. |
| PresaleProperties.PriceAfterIntervals | src/contracts/PresaleStaking.ts:437-472 | After k whole 120-day intervals and any part of the next, the price is base × (100 + k) / 100: linear, not compounded. |
| PresaleProperties.PriceMonotone | src/contracts/PresaleStaking.ts:735-753 | The price never decreases over time. |
| PresaleRules.Cost | src/contracts/PresaleStaking.ts:1056-1126 | The payment is amount × price / 10^18 rounded down: cost × 10^18 ≤ amount × price < (cost + 1) × 10^18. |
| PresaleProperties.CostAtWholePrice | src/contracts/PresaleStaking.ts:204-231 | At a price of n whole units per token, a purchase costs exactly amount × n. |
| PresaleProperties.RewardTolerance | src/contracts/PresaleStaking.ts:1433-1469 | The reward for w weeks lies between w one-week rewards and that plus w base units, well inside the suite's 0.1-token tolerance. |
| PresaleProperties.RewardForOneYear | src/contracts/PresaleStaking.ts:1223-1257 | Fifty-two weeks earn exactly amount × APY / 10000. |
| PresaleProperties.RewardMonotone | src/contracts/PresaleStaking.ts:1400-1432 | More weeks never earn less. |
| PresaleProperties.RewardSuperadditive | src/contracts/PresaleStaking.ts:1507-1549 | Claiming in two parts never earns more than claiming the whole span at once. |
| PresaleProperties.AccrualCappedAtLockEnd | src/contracts/PresaleStaking.ts:1471-1506 | An unclaimed stake read at or after its lock end has accrued exactly its lock period in whole weeks. |
| PresaleProperties.AccruedWholeWeeks | src/contracts/PresaleStaking.ts:1400-1432 | k weeks plus a partial week before the lock end count as exactly k weeks. |
| PresaleProperties.ClaimAllBound | src/contracts/PresaleStaking.ts:1916-1966 | Any sequence of claims keeps the stake's amount, lock and start. It moves the last claim forward, and it adds at most the reward for the weeks it covered. |
| PresaleProperties.ClaimsNeverExceedLockAccrual | src/contracts/PresaleStaking.ts:1471-1506 | However a fresh stake is claimed, the total it is paid never exceeds the reward for its whole lock period. |
| PresaleProperties.ClaimIncreasesClaimed | src/contracts/PresaleStaking.ts:1607-1651 | A successful claim with a whole week left before the lock end, on a stake whose weekly reward is at least one unit, pays a positive amount and strictly increases claimedRewards. |
| PresaleProperties.ClaimPastLockPaysZero | src/contracts/PresaleStaking.ts:1607-1651 | A claim a week after the last one with no whole week left before the lock end succeeds, pays nothing and only moves lastClaimTime. |
| PresaleProperties.WeeklyClaims | src/contracts/PresaleStaking.ts:1916-1966 | Claiming once a week for n weeks inside the lock pays exactly n one-week rewards and changes nothing but claimedRewards and lastClaimTime. |
| PresaleProperties.ReferralSplit | src/contracts/PresaleStaking.ts:1838-1913 | The level-2 credit never exceeds the level-1 credit. It is strictly smaller once the reward is at least ten units, and the two together take at most half of the reward. |
| PresaleProperties.UnlockedWholeWeeks | src/contracts/PresaleStaking.ts:2308-2338 | The unlocked share p means p / 10 whole weeks have passed since the lock end and, unless p is capped at one hundred, not one more. |
| PresaleProperties.WithdrawAfterWholeWeeks | src/contracts/PresaleStaking.ts:2308-2338 | A withdrawal k weeks plus a partial week after the lock end unlocks min(10k, 100) %. It succeeds exactly when that exceeds what was already withdrawn, and pays the difference. |
| PresaleProperties.WithdrawAgainRejected | src/contracts/PresaleStaking.ts:2237-2259 | Right after a successful withdrawal, a second one at the same time is rejected. |
| PresaleProperties.ReleasedBounds | src/contracts/PresaleStaking.ts:2272-2306 | Nothing is released at 0 %, exactly the principal at 100 %, and never more than the principal. |
| PresaleProperties.WithdrawAllReleases | src/contracts/PresaleStaking.ts:2157-2195 | Any sequence of withdrawal calls keeps the stake well-formed and its amount and lock unchanged. The total paid is the principal released between the first and the last percentage. |
| PresaleProperties.PrincipalReturnedExactly | src/contracts/PresaleStaking.ts:2272-2306 | Once a fresh stake is marked withdrawn, exactly its amount has been paid back, whatever the withdrawal times. |
| PresaleProperties.WeeklyTimesAt | src/contracts/PresaleStaking.ts:2157-2195 | The weekly schedule's i-th attempt comes i + 1 whole weeks after its start. |
| PresaleProperties.WeeklyWithdrawals | src/contracts/PresaleStaking.ts:2157-2195 | n weekly withdrawals from the lock end unlock 10n % and pay exactly that share. |
| PresaleProperties.TenWeeklyWithdrawalsReturnPrincipal | src/contracts/PresaleStaking.ts:2157-2195 | Ten weekly withdrawals from the lock end return the whole principal and leave the stake withdrawn. |
| PresaleScenarios.AdmissionExamples | src/contracts/PresaleStaking.ts:83-141 | The suite's admission cases: 2999 and tier shortfalls are rejected, 3000/30000/300000 are accepted, 1,000,001 is rejected, self-referral and a short token reserve are rejected. |
| PresaleScenarios.PriceExamples | src/contracts/PresaleStaking.ts:1057-1091 | 0.1 becomes 0.101 after one interval and exactly 0.102 after two. 5000 tokens cost 150000 USDT at first and 154500 after three intervals. |
| PresaleScenarios.RewardExamples | src/contracts/PresaleStaking.ts:1327-1398 | The suite's reward cases: nothing before a week or on a withdrawn stake, one and four weeks' worth, the 26-week cap, and claim failures for too soon, no USDT and withdrawn. |
| PresaleScenarios.FourWeeklyClaims | src/contracts/PresaleStaking.ts:1916-1966 | Four weekly claims of a 5000-token six-month stake pay four one-week rewards, within 0.1 token of four weeks' accrual. |
| PresaleScenarios.WithdrawFirstWeeks | src/contracts/PresaleStaking.ts:2100-2132 | Before the lock end: "Lock period not over". In the lock's first week: "No new amount available". After one week (or one and a half), 500 of 5000 tokens come back. |
| PresaleScenarios.WithdrawLater | src/contracts/PresaleStaking.ts:2133-2156 | Two weeks after the lock end, 20 % is unlocked; five weeks after, 2500 tokens are paid. |
| PresaleScenarios.WithdrawAllAtOnce | src/contracts/PresaleStaking.ts:2214-2236 | Ten or more weeks after the lock end, one withdrawal pays the whole 5000 and marks the stake withdrawn. A further call fails "Fully withdrawn". |
| PresaleScenarios.WithdrawRepeatRejected | src/contracts/PresaleStaking.ts:2237-2259 | A second withdrawal within the same week fails "No new amount available". |
| PresaleScenarios.ApyExamples | src/contracts/PresaleStaking.ts:2342-2369 | getAPY gives 8000, 10000 and 12000 for the three tiers and rejects any other period. |
| PresaleScenarios.AdminExamples | src/contracts/PresaleStaking.ts:2554-2946 | The suite's accepted and rejected arguments for every setter, including resetting both prices to zero. |
| PresaleScenarios.MultipleStakesScenario | src/contracts/PresaleStaking.ts:476-509 | Two purchases by one buyer leave two stakes in purchase order, each with its own amount and lock. |
| PresaleScenarios.ReferralChainScenario | src/contracts/PresaleStaking.ts:1838-2044 | In a two-level chain, the level-1 credit is positive and exceeds the level-2 credit. The level-1 referrer withdraws exactly that balance, and a second withdrawal fails "No staking referral rewards". |
| PresaleLedger.PresaleStaking.UserStakes | src/contracts/PresaleStaking.ts:2372-2412 | A user who never bought has no stakes, and every stake read from a well-formed ledger is well-formed. |
| PresaleLedger.PresaleStaking.StakingReferrals | src/contracts/PresaleStaking.ts:2413-2451 | An address that nobody named as referrer has brought in no users. |
| PresaleLedger.PresaleStaking.GetApy | src/contracts/PresaleStaking.ts:2342-2371 | Succeeds exactly for the three configured lock periods, with that tier's APY, and otherwise fails "Invalid lock period". |
| PresaleLedger.PresaleStaking.CurrentTokenPrice | src/contracts/PresaleStaking.ts:436-474 | The BNB or USDT price never falls below its base and equals the base before the first 120-day interval has passed. |
| PresaleLedger.PresaleStaking.CalculateRewards | src/contracts/PresaleStaking.ts:1387-1398 | Reading past the end of the user's list fails. Otherwise it gives that stake's reward. |
| PresaleLedger.PresaleStaking.constructor | src/contracts/PresaleStaking.ts:43-53 | A fresh ledger has the deployed configuration, no stakes, no referrers and no referral balances. |
| PresaleLedger.PresaleStaking.BuyTokens | src/contracts/PresaleStaking.ts:262-380 | A rejected purchase changes nothing. An accepted one appends the new stake to the buyer's list and returns the cost at the current price. The first non-zero referrer is recorded, the buyer is added to that referrer's list, and nothing else changes. |
| PresaleLedger.PresaleStaking.ClaimRewards | src/contracts/PresaleStaking.ts:1553-1785 | A missing index fails "Invalid stake index". A failed claim changes nothing. A successful one replaces only that stake and credits the referrers. |
| PresaleLedger.PresaleStaking.WithdrawStakingReferralRewards | src/contracts/PresaleStaking.ts:1973-2094 | A zero balance fails "No staking referral rewards". A balance above the USDT reserve fails "Insufficient USDT balance". Otherwise the whole balance is paid and reset to zero. |
| PresaleLedger.PresaleStaking.Withdraw | src/contracts/PresaleStaking.ts:2098-2270 | A missing index fails "Invalid stake index". A failed step changes nothing. A successful one replaces only that stake and pays its release. |
| PresaleLedger.PresaleStaking.UpdateApy | src/contracts/PresaleStaking.ts:2554-2607 | Applies the validated APY change to the ledger, leaving the stakes and referral data alone. |
| PresaleLedger.PresaleStaking.UpdateLockPeriods | src/contracts/PresaleStaking.ts:2608-2694 | Applies the validated lock-period change, leaving the rest alone. |
| PresaleLedger.PresaleStaking.UpdateMinStakeAmount | src/contracts/PresaleStaking.ts:2695-2744 | Applies the validated minimum, leaving the rest alone. |
| PresaleLedger.PresaleStaking.UpdateMaxStakeAmount | src/contracts/PresaleStaking.ts:2745-2786 | Applies the validated maximum, leaving the rest alone. |
| PresaleLedger.PresaleStaking.UpdateMinimumStakeAmounts | src/contracts/PresaleStaking.ts:2787-2889 | Applies the validated tier minimums, leaving the rest alone. |
| PresaleLedger.PresaleStaking.UpdateTokenPrices | src/contracts/PresaleStaking.ts:2890-2946 | Sets the prices so that the next read returns them, leaving the rest alone; the schedule restart is the model's choice described above. |
| SlotStaking.Withdrawable | src/components/payWith/ClaimWith.jsx:156-161 | The next withdrawal is a tenth of the staked amount, or what remains if that is less. It never exceeds either. |
| SlotStaking.WithdrawSlot | src/contracts/tests.js:180-194 | A slot withdrawal succeeds exactly when the slot is staked, its lock is over, a week has passed since the last withdrawal and something positive can be released. It pays that amount, records it and the time, never lets the withdrawn total exceed the stake, and fails "withdraw locked" while either gate is shut. |
| SlotStaking.NewStakerValid | src/contracts/tests.js:141-153 | An address that never staked reads as a well-formed record of three empty slots. |
| SlotStaking.SlotLedger.StakerInfoOf | src/contracts/tests.js:141-153 | An address that never staked reads as the record of three empty slots, and every record read from a well-formed ledger is well-formed. |
| SlotStaking.SlotLedger.StakePlans | src/contracts/tests.js:156 | Reading a plan succeeds exactly for the three plan indices and returns that plan. |
| SlotStaking.SlotLedger.constructor | src/contracts/tests.js:91-109 | A fresh ledger has the given three plans and no stakers. |
| SlotStaking.SlotLedger.SetStakePlan | src/contracts/tests.js:103-109 | Replaces exactly the indexed plan and rejects an index past the third. |
| SlotStaking.SlotLedger.Stake | src/contracts/tests.js:131-153 | The slot receives investAmount × 1e18 / price tokens with all three times set to now and nothing withdrawn. The staker's totals grow by the staked and invested amounts, and the first non-zero referrer is kept. It fails for a bad index, a shortfall below the plan minimum, an occupied slot or self-referral, changing nothing. |
| SlotStaking.SlotLedger.Withdraw | src/contracts/tests.js:180-194 | Applies the slot withdrawal to the indexed slot only and keeps every staker record well-formed. |
| SlotStaking.StakeScenario | src/contracts/tests.js:131-153 | Configuring plan 0 and staking 1000 units with no referrer leaves a well-formed ledger whose staker shows the zero referrer, matching totals and a fresh slot. |
| SlotStaking.WeeklyWithdrawScenario | src/contracts/tests.js:131-194 | After staking 1000 units with no referrer, the staker shows the zero referrer, matching totals and a fresh slot. Ten withdrawals a week apart, from four weeks and two days on, each pay a tenth. |
| ClaimWith.WithdrawalInfoOf | src/components/payWith/ClaimWith.jsx:123-182 | No staker record, no plan, no slot or an empty slot shows nothing to withdraw. Any amount shown is that slot's next withdrawal and never exceeds what remains. |
| ClaimWith.HandleWithdraw | src/components/payWith/ClaimWith.jsx:184-193 | A withdrawal of the selected plan is sent exactly when the panel allows it. |
| ClaimWith.CanWithdrawExactly | src/components/payWith/ClaimWith.jsx:143-163 | The button is enabled exactly when the slot is staked, the lock is over, a week has passed and the next withdrawal is positive. |
| ClaimWith.PanelAgreesWithContract | src/components/payWith/ClaimWith.jsx:143-163 | The panel enables the button exactly when the modelled slot withdrawal succeeds, and it shows the amount that withdrawal pays. The fixed-slot `withdraw` is reconstructed from this same client rule, so the agreement holds by construction and is not an independent check of the contract. |
| ClaimWith.NextWithdrawTimeInFuture | src/components/payWith/ClaimWith.jsx:163-170 | A next withdrawal time is shown exactly when a gate is shut. It then lies in the future. While the lock runs it is the lock end; after the lock end, within the week, it is a week after the last withdrawal. |
| ClaimWith.FirstWithdrawalAfterLock | src/components/payWith/ClaimWith.jsx:156-163 | A slot of ten units or more with nothing withdrawn can be withdrawn from once both gates open, and the first withdrawal is a tenth of it. |
| UserDataDisplayClaim.ProcessStakerInfo | src/components/userDataDisplay/UserDataDisplayClaim.jsx:154-211 | The summary carries the record's totals (zero when unloaded), the number of staked slots, the sum of the active slots' next withdrawals and of their withdrawn amounts. hasReferrer is true unless a loaded record has the zero referrer. |
| UserDataDisplayClaim.CountActive | src/components/userDataDisplay/UserDataDisplayClaim.jsx:174-175 | At most as many slots are active as there are slots. |
| UserDataDisplayClaim.WithdrawableWithinRemaining | src/components/userDataDisplay/UserDataDisplayClaim.jsx:178-195 | The withdrawable total never exceeds the staked total minus the withdrawn total of the active slots. |
| UserDataDisplayClaim.WithdrawableAtMostTenth | src/components/userDataDisplay/UserDataDisplayClaim.jsx:178-195 | The withdrawable total is at most a tenth of everything staked. |
| UserDataDisplayClaim.FreshWithdrawableIsTenths | src/components/userDataDisplay/UserDataDisplayClaim.jsx:178-195 | With nothing withdrawn yet, the withdrawn total is zero and the withdrawable total is the sum of each slot's tenth. |
| UserDataDisplayClaim.SummaryWithinTotal | src/components/userDataDisplay/UserDataDisplayClaim.jsx:154-211 | For a well-formed record, the withdrawable and withdrawn totals together stay within the record's staked total, and at most three slots are active. |
| UserDataDisplayClaim.CanWithdrawFromStake | src/components/userDataDisplay/UserDataDisplayClaim.jsx:257-271 | An enabled row has a loaded slot and plan, an ended lock, a week since the last withdrawal and something left. Whenever the claim panel would allow the withdrawal, the row does too. |
| UserDataDisplayClaim.StatusMessage | src/components/userDataDisplay/UserDataDisplayClaim.jsx:518-524 | A status line is shown exactly when the button is disabled. |
| UserDataDisplayClaim.Rows | src/components/userDataDisplay/UserDataDisplayClaim.jsx:333-346 | The list has one row per staked slot, in slot order. Each row is that slot's eligibility, next withdrawal and status under its own plan. |
| UserDataDisplayClaim.RowsComplete | src/components/userDataDisplay/UserDataDisplayClaim.jsx:333-346 | Every staked slot has a row. |
| UserDataDisplayClaim.StatusTruthful | src/components/userDataDisplay/UserDataDisplayClaim.jsx:257-271 | With the plan loaded and one clock, the button is enabled exactly when both gates are open and something remains. "Fully withdrawn", "Lock period active" and the weekly-limit message each appear exactly when their cause holds. |
| UserDataDisplayClaim.StatusWithoutPlan | src/components/userDataDisplay/UserDataDisplayClaim.jsx:518-524 | Before the plan loads, the button is disabled and, once the stake time has passed, the line blames the weekly limit. |
| UserDataDisplayClaim.ListAgreesWithPanel | src/components/userDataDisplay/UserDataDisplayClaim.jsx:257-271 | For a slot of ten units or more, the list's eligibility equals the panel's and the contract's. |
| UserDataDisplayClaim.ListEnablesEmptyWithdrawal | src/components/userDataDisplay/UserDataDisplayClaim.jsx:268 | A five-unit slot past both gates is enabled by the list and refused by the panel. The reconstructed slot withdrawal, built from the panel's rule, rejects it as having no amount to withdraw; the contract half is therefore by construction, and only the list-versus-panel disagreement reads directly from the client code. |
| UserDataDisplayClaim.ButtonDisabled | src/components/userDataDisplay/UserDataDisplayClaim.jsx:478-483 | A button is enabled exactly when the row can withdraw, is not the pending one, and no sent withdrawal is being confirmed. |
| UserDataDisplayClaim.WithdrawGuard.constructor | src/components/userDataDisplay/UserDataDisplayClaim.jsx:17-20 | The page starts with nothing pending and no transaction hash. |
| UserDataDisplayClaim.WithdrawGuard.HandleWithdrawStake | src/components/userDataDisplay/UserDataDisplayClaim.jsx:219-232 | A click while a withdrawal is pending is ignored. Otherwise the slot becomes pending, its withdrawal is sent, and its button is disabled. |
| UserDataDisplayClaim.WithdrawGuard.SubmissionAccepted | src/components/userDataDisplay/UserDataDisplayClaim.jsx:224-233 | Whatever writeContract resolved to, a hash or nothing, is kept, and the slot stays pending. |
| UserDataDisplayClaim.WithdrawGuard.SubmissionFailed | src/components/userDataDisplay/UserDataDisplayClaim.jsx:238-240 | A refused submission clears the pending slot. |
| UserDataDisplayClaim.WithdrawGuard.OnConfirmed | src/components/userDataDisplay/UserDataDisplayClaim.jsx:134-137 | A mined withdrawal clears the hash and the pending slot. |
| UserDataDisplayClaim.DoubleClickSendsOnce | src/components/userDataDisplay/UserDataDisplayClaim.jsx:219-221 | Two clicks in a row send one withdrawal. |
| UserDataDisplayClaim.RetryAfterFailureOrConfirmation | src/components/userDataDisplay/UserDataDisplayClaim.jsx:134-137 | After a refused submission, or once a submission that returned a hash is mined, the next click is sent again. |
| UserDataDisplayClaim.NoHashBlocksLaterClicks | src/components/userDataDisplay/UserDataDisplayClaim.jsx:125-137 | A submission that resolves to no hash leaves the receipt wait nothing to confirm: the guard stays busy and every later click is ignored. |
| UserDataDisplay.CountUnwithdrawn | src/components/userDataDisplay/UserDataDisplay.jsx:95-96 | At most as many stakes are unwithdrawn as there are stakes. |
| UserDataDisplay.RewardQueries | src/components/userDataDisplay/UserDataDisplay.jsx:39-57 | One query per unwithdrawn stake. Each carries the user and the stake's original index, and the indices increase. |
| UserDataDisplay.RewardQueriesComplete | src/components/userDataDisplay/UserDataDisplay.jsx:44-56 | Every unwithdrawn stake is queried. |
| UserDataDisplay.QueriesStayInRange | src/components/userDataDisplay/UserDataDisplay.jsx:44-56 | Against the ledger, no query hits the out-of-range failure of calculateRewards. |
| UserDataDisplay.TotalStaked | src/components/userDataDisplay/UserDataDisplay.jsx:73-81 | The total staked is the sum of the amounts of the unwithdrawn stakes, zero before the stakes load. |
| UserDataDisplay.TotalAfterPurchase | src/components/userDataDisplay/UserDataDisplay.jsx:73-81 | A purchase adds its whole amount to the total staked. |
| UserDataDisplay.TotalAfterWithdrawal | src/components/userDataDisplay/UserDataDisplay.jsx:73-81 | A withdrawal leaves the total staked unchanged until it releases the last share. Then the stake's whole amount leaves the total. |
| UserDataDisplay.TotalRewards | src/components/userDataDisplay/UserDataDisplay.jsx:84-91 | The total reward is the sum of the results of the successful reads. Failed reads and missing results add nothing. |
| UserDataDisplay.RewardAtIsLedgerRead | src/components/userDataDisplay/UserDataDisplay.jsx:84-91 | The reward read for one index is the ledger's calculateRewards answer, success or failure. |
| UserDataDisplay.ResultsFor | src/components/userDataDisplay/UserDataDisplay.jsx:60-65 | A batch read answers every query. |
| UserDataDisplay.ShownRewardsArePending | src/components/userDataDisplay/UserDataDisplay.jsx:84-91 | The total reward shown equals the contract's reward summed over all the user's stakes. Skipping the withdrawn stakes loses nothing. |
| UserDataDisplay.ActiveStakeCount | src/components/userDataDisplay/UserDataDisplay.jsx:95-96 | The active count equals the number of reward queries, for any user. |
| UserDataDisplay.CountAfterWithdrawal | src/components/userDataDisplay/UserDataDisplay.jsx:95-96 | A stake stays in the active count until its final withdrawal. |
| Countdown.Breakdown | src/components/countdown/Countdown.jsx:24-27 | Hours are below 24, and minutes and seconds below 60. |
| Countdown.DecimalString | src/components/countdown/Countdown.jsx:29-34 | String(n) is a non-empty run of decimal digits. It is one character exactly below ten and at most two below one hundred. |
| Countdown.PadStart2 | src/components/countdown/Countdown.jsx:29-34 | Padding gives at least two characters, ends with the original string and adds only zeros. |
| Countdown.DecimalStringRoundTrip | src/components/countdown/Countdown.jsx:29-34 | Reading a counter's decimal string back gives the counter. |
| Countdown.PaddedRoundTrip | src/components/countdown/Countdown.jsx:29-34 | A padded counter reads back as the counter, has at least two characters, and exactly two below one hundred. |
| Countdown.CalculateTimeLeft | src/components/countdown/Countdown.jsx:35-37 | From the end time on, all four fields are "00". |
| Countdown.BreakdownReconstructs | src/components/countdown/Countdown.jsx:22-27 | The four counters together make the time left rounded down to a whole second. |
| Countdown.ShownStringsReadBack | src/components/countdown/Countdown.jsx:18-34 | Before the end, each field reads back as its counter, and hours, minutes and seconds are exactly two characters. |
| Countdown.CountdownNonIncreasing | src/components/countdown/Countdown.jsx:18-27 | The time shown never grows as the clock advances. |

## Left out

- ClaimWith.WithdrawalInfoOf, ClaimWith.HandleWithdraw, ClaimWith.CanWithdrawExactly, ClaimWith.PanelAgreesWithContract, ClaimWith.NextWithdrawTimeInFuture, ClaimWith.FirstWithdrawalAfterLock, UserDataDisplayClaim.CanWithdrawFromStake, UserDataDisplayClaim.StatusMessage, UserDataDisplayClaim.ListAgreesWithPanel: the stake plan is taken to arrive as a record with named fields, as the client reads it (`stakePlans.lockDuration` at `ClaimWith.jsx:145`, `stakePlan.lockDuration` at `UserDataDisplayClaim.jsx:262` and `522`, `stakePlan.apy` at `UserDataDisplayClaim.jsx:369`). The ABI gives `stakePlans` three top-level outputs, `apy`, `lockDuration` and `minStakeAmount` (`src/config/presaleAbi.js:788-808`). For the staker record, the client's own comments say a multi-output read arrives as an array (`ClaimWith.jsx:132`, `UserDataDisplayClaim.jsx:159-160`). If plans decode the same way, `lockDuration` is undefined, no lock ever reads as ended, and neither panel enables a withdrawal. How the wallet library decodes the result is not part of this model.
- Token movements (ERC-20 transfers, allowances, BNB payment and refunds of excess), funding and emergency withdrawals, gas, owner-only access checks and token-address updates. These are effects on other contracts. The token and USDT reserves enter as numbers.
- The fixed-slot revision's `distributeRewards` and its reward formula. The repository shows only one inequality about it (a week's payout is below the weekly rate), which is not modelled.
- The fixed-slot revision's hardcap, start time, qualified-referrer rule, deposit accounting and the error names tied to them. None of their behaviour is shown.
- Referral levels beyond two, and any qualification threshold for the list revision: only the 30 % and 20 % levels are evidenced.
- The fixed-slot token price (`getTokenPrice`) is a parameter, required positive.
- SlotStaking.SlotLedger.Stake: its contract says when the call succeeds but not which of "already staked" or "circular referral" is reported when both apply; the body checks the occupied slot first.
- PresaleRules.CheckAdmission: for the last three failures the contract states implications rather than an exact condition per error.
- React and wagmi plumbing: hooks, refetch timers, window events, rendering, balances and the decimal formatting of amounts (`formatUnits` and friends).
- `calculateWithdrawablePercentage` in the claim page. It divides JavaScript floating-point numbers.
- `Date` parsing of the countdown's end time and its one-second timer. The countdown's floor divisions are modelled as exact integer division; floating-point rounding is not.
- What the wallet library returns from `writeContract` is an input of SubmissionAccepted, either a hash or nothing. The library is not part of this model. The claim panel reads its hash from the hook's `data` (`ClaimWith.jsx:28-32`), which suggests the call resolves to nothing. NoHashBlocksLaterClicks shows what the list then does.
- PresaleRules.ClaimStep: a claim with no whole week left before the lock end succeeds and pays zero (ClaimPastLockPaysZero). The suite never reaches this case, and the model follows the rules as they stand rather than inventing a revert for it.
- Concurrency: every call is sequential, and a failed call changes no state.
