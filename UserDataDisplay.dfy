/** The dashboard summary of a presale staker: which stakes get a reward query,
    the total still staked, the total pending reward and the number of active
    stakes. A read that has not returned yet is `None`. */
module UserDataDisplay {
  import opened Base
  import opened PresaleRules
  import PresaleLedger

  /** getUserStakes, with a missing answer read as no stakes. */
  function LoadedStakes(stakes: Option<seq<Stake>>): seq<Stake> {
    if stakes.Some? then stakes.value else []
  }

  // ---------------------------------------------------------------------------
  // Reward queries
  // ---------------------------------------------------------------------------

  /** One calculateRewards(user, index) read. */
  datatype RewardQuery = CalculateRewardsQuery(user: Address, index: nat)

  /** How many stakes are not yet withdrawn. */
  function CountUnwithdrawn(ss: seq<Stake>): (n: nat)
    ensures n <= |ss|
  {
    if ss == [] then 0
    else CountUnwithdrawn(ss[..|ss| - 1]) + (if ss[|ss| - 1].withdrawn then 0 else 1)
  }

  /** rewardCalculationContracts: one query per stake that is not withdrawn, in
      stake order. */
  function RewardQueries(user: Address, ss: seq<Stake>): (qs: seq<RewardQuery>)
    ensures |qs| == CountUnwithdrawn(ss)
    ensures forall k | 0 <= k < |qs| :: qs[k].user == user && qs[k].index < |ss| && !ss[qs[k].index].withdrawn
    ensures forall k, l | 0 <= k < l < |qs| :: qs[k].index < qs[l].index
  {
    if ss == [] then []
    else
      var n := |ss| - 1;
      RewardQueries(user, ss[..n]) + (if ss[n].withdrawn then [] else [CalculateRewardsQuery(user, n)])
  }

  /** Every stake that is not withdrawn is queried. */
  lemma {:induction false} RewardQueriesComplete(user: Address, ss: seq<Stake>, i: nat)
    requires i < |ss| && !ss[i].withdrawn
    ensures exists k | 0 <= k < |RewardQueries(user, ss)| :: RewardQueries(user, ss)[k].index == i
  {
    var n := |ss| - 1;
    var qs := RewardQueries(user, ss);
    if i == n {
      assert qs[|qs| - 1].index == i;
    } else {
      RewardQueriesComplete(user, ss[..n], i);
      var k :| 0 <= k < |RewardQueries(user, ss[..n])| && RewardQueries(user, ss[..n])[k].index == i;
      assert qs[k] == RewardQueries(user, ss[..n])[k];
    }
  }

  /** Against the ledger, no query asks for a stake past the end of the user's list. */
  lemma QueriesStayInRange(ledger: PresaleLedger.PresaleStaking, user: Address, now: nat)
    ensures var qs := RewardQueries(user, ledger.UserStakes(user));
            forall k | 0 <= k < |qs| :: ledger.CalculateRewards(user, qs[k].index, now) != Err(IndexOutOfBounds)
  {
    var qs := RewardQueries(user, ledger.UserStakes(user));
    forall k | 0 <= k < |qs|
      ensures ledger.CalculateRewards(user, qs[k].index, now) != Err(IndexOutOfBounds)
    {
      assert StakeRewards(ledger.config, ledger.UserStakes(user)[qs[k].index], now) != Err(IndexOutOfBounds);
    }
  }

  // ---------------------------------------------------------------------------
  // Total staked
  // ---------------------------------------------------------------------------

  /** The amounts of the stakes that are not withdrawn, added up. */
  function SumUnwithdrawnAmount(ss: seq<Stake>): nat {
    if ss == [] then 0
    else SumUnwithdrawnAmount(ss[..|ss| - 1]) + (if ss[|ss| - 1].withdrawn then 0 else ss[|ss| - 1].amount)
  }

  /** totalStaked. */
  method TotalStaked(stakes: Option<seq<Stake>>) returns (total: nat)
    ensures total == SumUnwithdrawnAmount(LoadedStakes(stakes))
  {
    var ss := LoadedStakes(stakes);
    total := 0;
    var i := 0;
    while i < |ss|
      invariant 0 <= i <= |ss|
      invariant total == SumUnwithdrawnAmount(ss[..i])
    {
      if !ss[i].withdrawn {
        total := total + ss[i].amount;
      }
      assert ss[..i + 1][..i] == ss[..i];
      i := i + 1;
    }
    assert ss[..|ss|] == ss;
  }

  lemma {:induction false} SumUnwithdrawnUpdate(ss: seq<Stake>, i: nat, s: Stake)
    requires i < |ss|
    ensures SumUnwithdrawnAmount(ss[i := s])
            == SumUnwithdrawnAmount(ss) - (if ss[i].withdrawn then 0 else ss[i].amount) + (if s.withdrawn then 0 else s.amount)
  {
    var n := |ss| - 1;
    if i < n {
      assert ss[i := s][..n] == ss[..n][i := s];
      SumUnwithdrawnUpdate(ss[..n], i, s);
    } else {
      assert ss[i := s][..n] == ss[..n];
    }
  }

  /** A purchase adds its whole amount to the displayed total. */
  lemma TotalAfterPurchase(ss: seq<Stake>, amount: nat, lockPeriod: nat, now: nat, referrer: Address)
    ensures SumUnwithdrawnAmount(ss + [NewStake(amount, lockPeriod, now, referrer)]) == SumUnwithdrawnAmount(ss) + amount
  {
    assert (ss + [NewStake(amount, lockPeriod, now, referrer)])[..|ss|] == ss;
  }

  /** A withdrawal leaves the displayed total alone until it releases the last
      tenth; then the stake's whole amount leaves the total. */
  lemma TotalAfterWithdrawal(ss: seq<Stake>, i: nat, now: nat)
    requires i < |ss| && WithdrawStep(ss[i], now).Ok?
    ensures var s' := WithdrawStep(ss[i], now).value.0;
            SumUnwithdrawnAmount(ss[i := s']) == SumUnwithdrawnAmount(ss) - (if s'.withdrawn then ss[i].amount else 0)
  {
    SumUnwithdrawnUpdate(ss, i, WithdrawStep(ss[i], now).value.0);
  }

  // ---------------------------------------------------------------------------
  // Total rewards
  // ---------------------------------------------------------------------------

  /** One entry of the batched read: a successful call carries its result, which
      may be missing; a reverted call carries nothing. */
  datatype RewardResult = Success(result: Option<nat>) | Failure

  function LoadedResults(results: Option<seq<RewardResult>>): seq<RewardResult> {
    if results.Some? then results.value else []
  }

  /** What one entry adds to the total: its result if the call succeeded, else zero. */
  function Contribution(r: RewardResult): nat {
    if r.Success? && r.result.Some? then r.result.value else 0
  }

  function SumSuccessful(rs: seq<RewardResult>): nat {
    if rs == [] then 0 else SumSuccessful(rs[..|rs| - 1]) + Contribution(rs[|rs| - 1])
  }

  /** totalRewards. */
  method TotalRewards(results: Option<seq<RewardResult>>) returns (total: nat)
    ensures total == SumSuccessful(LoadedResults(results))
  {
    var rs := LoadedResults(results);
    total := 0;
    var i := 0;
    while i < |rs|
      invariant 0 <= i <= |rs|
      invariant total == SumSuccessful(rs[..i])
    {
      if rs[i].Success? {
        total := total + (if rs[i].result.Some? then rs[i].result.value else 0);
      }
      assert rs[..i + 1][..i] == rs[..i];
      i := i + 1;
    }
    assert rs[..|rs|] == rs;
  }

  lemma {:induction false} SumSuccessfulAppend(a: seq<RewardResult>, b: seq<RewardResult>)
    ensures SumSuccessful(a + b) == SumSuccessful(a) + SumSuccessful(b)
  {
    if b != [] {
      var n := |b| - 1;
      assert (a + b)[..|a + b| - 1] == a + b[..n];
      SumSuccessfulAppend(a, b[..n]);
    } else {
      assert a + b == a;
    }
  }

  /** The read of stake `index` of `ss`, as calculateRewards answers it. */
  function RewardAt(c: Config, ss: seq<Stake>, index: nat, now: nat): RewardResult {
    if index >= |ss| then Failure
    else
      var r := StakeRewards(c, ss[index], now);
      if r.Ok? then Success(Some(r.value)) else Failure
  }

  lemma RewardAtIsLedgerRead(ledger: PresaleLedger.PresaleStaking, user: Address, index: nat, now: nat)
    ensures var r := ledger.CalculateRewards(user, index, now);
            RewardAt(ledger.config, ledger.UserStakes(user), index, now) == (if r.Ok? then Success(Some(r.value)) else Failure)
  {
  }

  /** The answers to a batch of queries. */
  function ResultsFor(c: Config, ss: seq<Stake>, qs: seq<RewardQuery>, now: nat): (rs: seq<RewardResult>)
    ensures |rs| == |qs|
  {
    seq(|qs|, k requires 0 <= k < |qs| => RewardAt(c, ss, qs[k].index, now))
  }

  /** The reward calculateRewards reports for every stake, withdrawn or not, added up. */
  function SumPendingRewards(c: Config, ss: seq<Stake>, now: nat): nat {
    if ss == [] then 0
    else
      var r := StakeRewards(c, ss[|ss| - 1], now);
      SumPendingRewards(c, ss[..|ss| - 1], now) + (if r.Ok? then r.value else 0)
  }

  /** Answers to queries about a prefix do not depend on what follows it. */
  lemma ResultsForPrefix(c: Config, ss: seq<Stake>, s: Stake, qs: seq<RewardQuery>, now: nat)
    requires forall k | 0 <= k < |qs| :: qs[k].index < |ss|
    ensures ResultsFor(c, ss + [s], qs, now) == ResultsFor(c, ss, qs, now)
  {
    forall k | 0 <= k < |qs|
      ensures ResultsFor(c, ss + [s], qs, now)[k] == ResultsFor(c, ss, qs, now)[k]
    {
      assert (ss + [s])[qs[k].index] == ss[qs[k].index];
    }
  }

  /** The total shown equals the reward the contract reports over all of the user's
      stakes: skipping the withdrawn ones loses nothing, since they report zero. */
  lemma {:induction false} ShownRewardsArePending(c: Config, user: Address, ss: seq<Stake>, now: nat)
    ensures SumSuccessful(ResultsFor(c, ss, RewardQueries(user, ss), now)) == SumPendingRewards(c, ss, now)
  {
    if ss != [] {
      var n := |ss| - 1;
      var prefix := ss[..n];
      assert ss == prefix + [ss[n]];
      var qs0 := RewardQueries(user, prefix);
      ShownRewardsArePending(c, user, prefix, now);
      ResultsForPrefix(c, prefix, ss[n], qs0, now);
      if ss[n].withdrawn {
        assert RewardQueries(user, ss) == qs0;
      } else {
        var q := CalculateRewardsQuery(user, n);
        assert RewardQueries(user, ss) == qs0 + [q];
        assert ResultsFor(c, ss, qs0 + [q], now) == ResultsFor(c, ss, qs0, now) + [RewardAt(c, ss, n, now)];
        SumSuccessfulAppend(ResultsFor(c, ss, qs0, now), [RewardAt(c, ss, n, now)]);
        assert SumSuccessful([RewardAt(c, ss, n, now)]) == Contribution(RewardAt(c, ss, n, now));
      }
    }
  }

  // ---------------------------------------------------------------------------
  // Active stake count
  // ---------------------------------------------------------------------------

  /** activeStakeCount: the stakes that are not withdrawn. */
  function ActiveStakeCount(stakes: Option<seq<Stake>>): (n: nat)
    ensures n <= |LoadedStakes(stakes)|
    ensures forall user: Address :: n == |RewardQueries(user, LoadedStakes(stakes))|
  {
    CountUnwithdrawn(LoadedStakes(stakes))
  }

  /** A stake counts as active until its last tenth is withdrawn. */
  lemma {:induction false} CountAfterWithdrawal(ss: seq<Stake>, i: nat, now: nat)
    requires i < |ss| && WithdrawStep(ss[i], now).Ok?
    ensures var s' := WithdrawStep(ss[i], now).value.0;
            CountUnwithdrawn(ss[i := s']) == CountUnwithdrawn(ss) - (if s'.withdrawn then 1 else 0)
  {
    var n := |ss| - 1;
    var s' := WithdrawStep(ss[i], now).value.0;
    if i < n {
      assert ss[i := s'][..n] == ss[..n][i := s'];
      CountAfterWithdrawal(ss[..n], i, now);
    } else {
      assert ss[i := s'][..n] == ss[..n];
    }
  }
}
