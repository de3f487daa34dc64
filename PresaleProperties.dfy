/** Properties of the ledger rules that relate several calls or hold for all
    inputs: linear price escalation, the per-week reward tolerance, accrual
    capped at the lock end, the referral split, and phased release returning
    exactly the principal. */
module PresaleProperties {
  import opened Base
  import opened PresaleRules

  // ---------------------------------------------------------------------------
  // Price
  // ---------------------------------------------------------------------------

  /** k whole intervals after the start, the price is the base raised by k percent. */
  lemma PriceAfterIntervals(base: nat, start: nat, k: nat, r: nat)
    requires r < PRICE_INCREASE_INTERVAL
    ensures PriceAt(base, start, start + k * PRICE_INCREASE_INTERVAL + r) == base * (100 + k) / 100
  {
    DivUnique(k * PRICE_INCREASE_INTERVAL + r, PRICE_INCREASE_INTERVAL, k, r);
    if k == 0 && r == 0 {
      assert IntervalsElapsed(start, start) == 0;
    }
  }

  /** The price never falls as time passes. */
  lemma PriceMonotone(base: nat, start: nat, t1: nat, t2: nat)
    requires t1 <= t2
    ensures PriceAt(base, start, t1) <= PriceAt(base, start, t2)
  {
    var k1, k2 := IntervalsElapsed(start, t1), IntervalsElapsed(start, t2);
    if t1 > start {
      DivMonotone(t1 - start, t2 - start, PRICE_INCREASE_INTERVAL);
    }
    assert k1 <= k2;
    MulLe(100 + k1, 100 + k2, base);
    assert base * (100 + k1) <= base * (100 + k2);
    DivMonotone(base * (100 + k1), base * (100 + k2), 100);
  }

  /** At a price of n whole payment units per token the cost is n times the amount. */
  lemma CostAtWholePrice(amount: nat, n: nat)
    ensures Cost(amount, n * ONE_TOKEN) == amount * n
  {
    assert amount * (n * ONE_TOKEN) == (amount * n) * ONE_TOKEN;
    DivUnique(amount * (n * ONE_TOKEN), ONE_TOKEN, amount * n, 0);
  }

  // ---------------------------------------------------------------------------
  // Rewards
  // ---------------------------------------------------------------------------

  /** Multiplying before dividing makes w weeks' reward at most w units above w
      times one week's reward, and never below it. */
  lemma RewardTolerance(amount: nat, apy: nat, w: nat)
    requires w > 0
    ensures w * RewardFor(amount, apy, 1) <= RewardFor(amount, apy, w) < w * RewardFor(amount, apy, 1) + w
  {
    var x, D := amount * apy, WEEKS_PER_YEAR * BASIS_POINTS;
    var q, rem := x / D, x % D;
    assert RewardFor(amount, apy, 1) == q;
    var t, u := (rem * w) / D, (rem * w) % D;
    assert x * w == (q * w + t) * D + u by {
      assert x == q * D + rem;
      assert x * w == q * w * D + rem * w;
      assert rem * w == t * D + u;
    }
    DivUnique(x * w, D, q * w + t, u);
    assert t < w by {
      MulLe(rem, D - 1, w);
      DivMonotone(rem * w, (D - 1) * w, D);
      assert (D - 1) * w < w * D;
      DivBelow((D - 1) * w, w, D);
    }
  }

  lemma DivBelow(n: nat, w: nat, d: nat)
    requires d > 0 && n < w * d
    ensures n / d < w
  {
    DivBounds(n, d);
    if n / d >= w {
      MulLe(w, n / d, d);
      assert false;
    }
  }

  /** A full year's accrual is exactly the APY's share of the principal. */
  lemma RewardForOneYear(amount: nat, apy: nat)
    ensures RewardFor(amount, apy, WEEKS_PER_YEAR) == amount * apy / BASIS_POINTS
  {
    var x := amount * apy;
    var q, rem := x / BASIS_POINTS, x % BASIS_POINTS;
    assert x * WEEKS_PER_YEAR == q * (WEEKS_PER_YEAR * BASIS_POINTS) + rem * WEEKS_PER_YEAR;
    DivUnique(x * WEEKS_PER_YEAR, WEEKS_PER_YEAR * BASIS_POINTS, q, rem * WEEKS_PER_YEAR);
  }

  lemma RewardMonotone(amount: nat, apy: nat, w1: nat, w2: nat)
    requires w1 <= w2
    ensures RewardFor(amount, apy, w1) <= RewardFor(amount, apy, w2)
  {
    MulLe(w1, w2, amount * apy);
    DivMonotone(amount * apy * w1, amount * apy * w2, WEEKS_PER_YEAR * BASIS_POINTS);
  }

  /** Claiming in pieces never pays more than claiming the same weeks at once. */
  lemma RewardSuperadditive(amount: nat, apy: nat, w1: nat, w2: nat)
    ensures RewardFor(amount, apy, w1) + RewardFor(amount, apy, w2) <= RewardFor(amount, apy, w1 + w2)
  {
    var D := WEEKS_PER_YEAR * BASIS_POINTS;
    var a, b := amount * apy * w1, amount * apy * w2;
    assert amount * apy * (w1 + w2) == a + b;
    DivBounds(a, D);
    DivBounds(b, D);
    var q := a / D + b / D;
    assert q * D <= a + b;
    var qs := (a + b) / D;
    DivBounds(a + b, D);
  }

  /** A stake that has never been claimed accrues, once its lock is over,
      exactly the whole weeks of its lock period. */
  lemma AccrualCappedAtLockEnd(s: Stake, now: nat)
    requires s.lastClaimTime == s.stakingStartTime && now >= s.LockEnd()
    ensures AccruedWeeks(s, now) == s.lockPeriod / WEEK
  {
  }

  /** Before the lock end, k whole weeks and a fraction after the last claim accrue k weeks. */
  lemma AccruedWholeWeeks(s: Stake, k: nat, r: nat)
    requires r < WEEK && s.lastClaimTime + k * WEEK + r <= s.LockEnd()
    ensures AccruedWeeks(s, s.lastClaimTime + k * WEEK + r) == k
  {
    DivUnique(k * WEEK + r, WEEK, k, r);
  }

  // ---------------------------------------------------------------------------
  // Repeated claims
  // ---------------------------------------------------------------------------

  /** The stake after a series of claim attempts at the given times; a rejected
      attempt leaves it unchanged. */
  function ClaimAll(c: Config, s: Stake, times: seq<nat>, usdtReserve: nat): Stake
    decreases |times|
  {
    if times == [] then s
    else
      var p := ClaimAll(c, s, times[..|times| - 1], usdtReserve);
      match ClaimStep(c, p, times[|times| - 1], usdtReserve)
      case Ok((p', _)) => p'
      case Err(_) => p
  }

  /** The whole weeks the successful claims in such a series were paid for. */
  function ClaimedWeeks(c: Config, s: Stake, times: seq<nat>, usdtReserve: nat): nat
    decreases |times|
  {
    if times == [] then 0
    else
      var p := ClaimAll(c, s, times[..|times| - 1], usdtReserve);
      var w := ClaimedWeeks(c, s, times[..|times| - 1], usdtReserve);
      match ClaimStep(c, p, times[|times| - 1], usdtReserve)
      case Ok(_) => w + AccruedWeeks(p, times[|times| - 1])
      case Err(_) => w
  }

  /** Over any series of claims, the rewards paid are at most the reward for the
      weeks paid for, and those weeks fit between the first claim time and the lock end. */
  lemma {:induction false} ClaimAllBound(c: Config, s: Stake, times: seq<nat>, usdtReserve: nat)
    requires s.lastClaimTime <= s.LockEnd()
    requires ApyFor(c.lockPeriods, c.apys, s.lockPeriod).Ok?
    ensures var p := ClaimAll(c, s, times, usdtReserve);
            var w := ClaimedWeeks(c, s, times, usdtReserve);
            var apy := ApyFor(c.lockPeriods, c.apys, s.lockPeriod).value;
            && p.amount == s.amount && p.lockPeriod == s.lockPeriod
            && p.stakingStartTime == s.stakingStartTime
            && s.lastClaimTime <= p.lastClaimTime
            && s.lastClaimTime + w * WEEK <= Min(p.lastClaimTime, s.LockEnd())
            && p.claimedRewards <= s.claimedRewards + RewardFor(s.amount, apy, w)
    decreases |times|
  {
    if times != [] {
      var init := times[..|times| - 1];
      var t := times[|times| - 1];
      var apy := ApyFor(c.lockPeriods, c.apys, s.lockPeriod).value;
      ClaimAllBound(c, s, init, usdtReserve);
      var p := ClaimAll(c, s, init, usdtReserve);
      var w := ClaimedWeeks(c, s, init, usdtReserve);
      match ClaimStep(c, p, t, usdtReserve)
      case Ok((p', reward)) =>
        var dw := AccruedWeeks(p, t);
        assert ClaimAll(c, s, times, usdtReserve) == p';
        assert ClaimedWeeks(c, s, times, usdtReserve) == w + dw;
        assert s.lastClaimTime + (w + dw) * WEEK <= Min(t, s.LockEnd());
        assert reward <= RewardFor(s.amount, apy, dw);
        RewardSuperadditive(s.amount, apy, w, dw);
      case Err(_) =>
        assert ClaimAll(c, s, times, usdtReserve) == p;
    }
  }

  /** A fresh stake can never collect more than the reward for its whole lock period,
      however its claims are spread over time. */
  lemma ClaimsNeverExceedLockAccrual(c: Config, s: Stake, times: seq<nat>, usdtReserve: nat)
    requires s.lastClaimTime == s.stakingStartTime
    requires ApyFor(c.lockPeriods, c.apys, s.lockPeriod).Ok?
    ensures ClaimAll(c, s, times, usdtReserve).claimedRewards <=
      s.claimedRewards + RewardFor(s.amount, ApyFor(c.lockPeriods, c.apys, s.lockPeriod).value, s.lockPeriod / WEEK)
  {
    ClaimAllBound(c, s, times, usdtReserve);
    var w := ClaimedWeeks(c, s, times, usdtReserve);
    assert w * WEEK <= s.lockPeriod;
    if w > s.lockPeriod / WEEK {
      DivBounds(s.lockPeriod, WEEK);
      MulLe(s.lockPeriod / WEEK + 1, w, WEEK);
      assert false;
    }
    RewardMonotone(s.amount, ApyFor(c.lockPeriods, c.apys, s.lockPeriod).value, w, s.lockPeriod / WEEK);
  }

  /** Claiming exactly once a week within the lock period pays one week's reward
      each time: after n claims, n times the weekly reward. */
  lemma {:induction false} WeeklyClaims(c: Config, s: Stake, n: nat, usdtReserve: nat)
    requires !s.withdrawn && s.lastClaimTime + n * WEEK <= s.LockEnd()
    requires ApyFor(c.lockPeriods, c.apys, s.lockPeriod).Ok?
    requires RewardFor(s.amount, ApyFor(c.lockPeriods, c.apys, s.lockPeriod).value, 1) <= usdtReserve
    ensures var p := ClaimAll(c, s, WeeklyTimes(s.lastClaimTime, n), usdtReserve);
            var apy := ApyFor(c.lockPeriods, c.apys, s.lockPeriod).value;
            && p == s.(claimedRewards := p.claimedRewards, lastClaimTime := p.lastClaimTime)
            && p.lastClaimTime == s.lastClaimTime + n * WEEK
            && p.claimedRewards == s.claimedRewards + n * RewardFor(s.amount, apy, 1)
  {
    if n > 0 {
      var ts := WeeklyTimes(s.lastClaimTime, n);
      assert ts[..n - 1] == WeeklyTimes(s.lastClaimTime, n - 1);
      WeeklyClaims(c, s, n - 1, usdtReserve);
      var p := ClaimAll(c, s, ts[..n - 1], usdtReserve);
      AccruedWholeWeeks(p, 1, 0);
    }
  }

  /** A claim with at least a whole week left before the lock end pays something,
      so claimedRewards strictly grows, once a week's reward is at least one unit. */
  lemma ClaimIncreasesClaimed(c: Config, s: Stake, now: nat, usdtReserve: nat)
    requires ClaimStep(c, s, now, usdtReserve).Ok?
    requires s.lastClaimTime + WEEK <= s.LockEnd()
    requires ApyFor(c.lockPeriods, c.apys, s.lockPeriod).Ok?
    requires s.amount * ApyFor(c.lockPeriods, c.apys, s.lockPeriod).value >= WEEKS_PER_YEAR * BASIS_POINTS
    ensures ClaimStep(c, s, now, usdtReserve).value.1 > 0
    ensures ClaimStep(c, s, now, usdtReserve).value.0.claimedRewards > s.claimedRewards
  {
    var apy := ApyFor(c.lockPeriods, c.apys, s.lockPeriod).value;
    var w := AccruedWeeks(s, now);
    assert w >= 1;
    var d := WEEKS_PER_YEAR * BASIS_POINTS;
    assert s.amount * apy <= s.amount * apy * w by { MulLe(1, w, s.amount * apy); }
    DivMonotone(d, s.amount * apy * w, d);
  }

  /** A claim that comes a week after the last one but with no whole week left before
      the lock end succeeds, pays nothing, and only moves the claim time. */
  lemma ClaimPastLockPaysZero(c: Config, s: Stake, now: nat, usdtReserve: nat)
    requires !s.withdrawn && now >= s.lastClaimTime + WEEK
    requires s.LockEnd() < s.lastClaimTime + WEEK
    ensures ClaimStep(c, s, now, usdtReserve) == Ok((s.(lastClaimTime := now), 0))
  {
    assert AccruedWeeks(s, now) == 0;
  }

  // ---------------------------------------------------------------------------
  // Referral credit
  // ---------------------------------------------------------------------------

  /** The direct referrer never earns less than the second level, strictly more from
      ten units on, and both together take at most half of the reward. */
  lemma ReferralSplit(reward: nat)
    ensures Level2Credit(reward) <= Level1Credit(reward)
    ensures reward >= 10 ==> Level2Credit(reward) < Level1Credit(reward)
    ensures Level1Credit(reward) + Level2Credit(reward) <= reward / 2
  {
    var q, r := reward / 10, reward % 10;
    DivUnique(reward * 30, 100, 3 * q + (30 * r) / 100, (30 * r) % 100);
    DivUnique(reward * 20, 100, 2 * q + (20 * r) / 100, (20 * r) % 100);
    DivUnique(reward, 2, 5 * q + r / 2, r % 2);
  }

  // ---------------------------------------------------------------------------
  // Phased release of the principal
  // ---------------------------------------------------------------------------

  /** k whole weeks and a fraction after the lock end, the unlocked share is ten
      percent per week, at most one hundred; a withdrawal succeeds exactly when
      that share exceeds what was already released, and pays the difference. */
  lemma WithdrawAfterWholeWeeks(s: Stake, k: nat, r: nat)
    requires !s.withdrawn && r < WEEK
    ensures var now := s.LockEnd() + k * WEEK + r;
            var pct := Min(RELEASE_PERCENT_PER_WEEK * k, 100);
            && (pct <= s.withdrawnPercentage ==> WithdrawStep(s, now) == Err(NoNewAmount))
            && (pct > s.withdrawnPercentage ==>
                  && WithdrawStep(s, now).Ok?
                  && WithdrawStep(s, now).value.0.withdrawnPercentage == pct
                  && WithdrawStep(s, now).value.1 == Released(s.amount, pct) - Released(s.amount, s.withdrawnPercentage))
  {
    DivUnique(k * WEEK + r, WEEK, k, r);
  }

  /** The unlocked share counts whole weeks since the lock end: p / 10 weeks have
      passed, and unless the share is capped at one hundred, not one more. */
  lemma UnlockedWholeWeeks(s: Stake, now: nat)
    requires now >= s.LockEnd()
    ensures var p := UnlockedPercentage(s, now);
            && s.LockEnd() + p / RELEASE_PERCENT_PER_WEEK * WEEK <= now
            && (p < 100 ==> now < s.LockEnd() + (p / RELEASE_PERCENT_PER_WEEK + 1) * WEEK)
  {
    DivBounds(now - s.LockEnd(), WEEK);
  }

  /** A second withdrawal at the same moment is always rejected. */
  lemma WithdrawAgainRejected(s: Stake, now: nat)
    requires WithdrawStep(s, now).Ok?
    ensures var s' := WithdrawStep(s, now).value.0;
            WithdrawStep(s', now) == Err(NoNewAmount) || WithdrawStep(s', now) == Err(FullyWithdrawn)
  {
  }

  /** Releasing the whole principal returns exactly the principal. */
  lemma ReleasedBounds(amount: nat, pct: nat)
    requires pct <= 100
    ensures Released(amount, 0) == 0 && Released(amount, 100) == amount
    ensures Released(amount, pct) <= amount
  {
    DivUnique(amount * 100, 100, amount, 0);
    ReleasedMonotone(amount, pct, 100);
  }

  /** The stake and the total principal paid after a series of withdrawal attempts;
      a rejected attempt changes nothing. */
  function WithdrawAll(s: Stake, times: seq<nat>): (Stake, nat)
    decreases |times|
  {
    if times == [] then (s, 0)
    else
      var (p, paid) := WithdrawAll(s, times[..|times| - 1]);
      match WithdrawStep(p, times[|times| - 1])
      case Ok((p', out)) => (p', paid + out)
      case Err(_) => (p, paid)
  }

  /** However the withdrawals are timed, the principal paid so far is exactly the
      released share of the principal, and the stake stays well formed. */
  lemma {:induction false} WithdrawAllReleases(s: Stake, times: seq<nat>)
    requires StakeInv(s)
    ensures var (p, paid) := WithdrawAll(s, times);
            && StakeInv(p) && p.amount == s.amount && p.LockEnd() == s.LockEnd()
            && s.withdrawnPercentage <= p.withdrawnPercentage
            && paid == Released(s.amount, p.withdrawnPercentage) - Released(s.amount, s.withdrawnPercentage)
    decreases |times|
  {
    if times != [] {
      var init := times[..|times| - 1];
      WithdrawAllReleases(s, init);
      var (p, paid) := WithdrawAll(s, init);
      ReleasedMonotone(s.amount, s.withdrawnPercentage, p.withdrawnPercentage);
      match WithdrawStep(p, times[|times| - 1])
      case Ok((p', out)) =>
        ReleasedMonotone(s.amount, p.withdrawnPercentage, p'.withdrawnPercentage);
      case Err(_) =>
    }
  }

  /** A stake that is closed by withdrawals has returned exactly its principal. */
  lemma PrincipalReturnedExactly(s: Stake, times: seq<nat>)
    requires StakeInv(s) && s.withdrawnPercentage == 0
    requires WithdrawAll(s, times).0.withdrawn
    ensures WithdrawAll(s, times).1 == s.amount
  {
    WithdrawAllReleases(s, times);
    ReleasedBounds(s.amount, 0);
  }

  /** One attempt at the end of each of the first n weeks after `from`. */
  function WeeklyTimes(from: nat, n: nat): (ts: seq<nat>)
    ensures |ts| == n
  {
    if n == 0 then [] else WeeklyTimes(from, n - 1) + [from + n * WEEK]
  }

  /** The i-th attempt (from zero) comes i + 1 whole weeks after `from`. */
  lemma {:induction false} WeeklyTimesAt(from: nat, n: nat)
    ensures forall i | 0 <= i < n :: WeeklyTimes(from, n)[i] == from + (i + 1) * WEEK
  {
    if n > 0 {
      WeeklyTimesAt(from, n - 1);
    }
  }

  /** Withdrawing once a week after the lock ends releases another ten percent each
      time: after n of the first ten weeks, 10 * n percent has been paid. */
  lemma {:induction false} WeeklyWithdrawals(s: Stake, n: nat)
    requires StakeInv(s) && s.withdrawnPercentage == 0 && n <= 10
    ensures var (p, paid) := WithdrawAll(s, WeeklyTimes(s.LockEnd(), n));
            p.withdrawnPercentage == RELEASE_PERCENT_PER_WEEK * n && paid == Released(s.amount, RELEASE_PERCENT_PER_WEEK * n)
  {
    ReleasedBounds(s.amount, 0);
    if n > 0 {
      var ts := WeeklyTimes(s.LockEnd(), n);
      assert ts[..n - 1] == WeeklyTimes(s.LockEnd(), n - 1);
      WeeklyWithdrawals(s, n - 1);
      WithdrawAllReleases(s, ts[..n - 1]);
      var (p, paid) := WithdrawAll(s, ts[..n - 1]);
      WithdrawAfterWholeWeeks(p, n, 0);
      WithdrawAllReleases(s, ts);
    }
  }

  /** Ten weekly withdrawals after the lock ends close the stake and return the whole principal. */
  lemma TenWeeklyWithdrawalsReturnPrincipal(s: Stake)
    requires StakeInv(s) && s.withdrawnPercentage == 0
    ensures var (p, paid) := WithdrawAll(s, WeeklyTimes(s.LockEnd(), 10));
            p.withdrawn && paid == s.amount
  {
    WeeklyWithdrawals(s, 10);
    WithdrawAllReleases(s, WeeklyTimes(s.LockEnd(), 10));
    ReleasedBounds(s.amount, 0);
  }
}
