/** A run from any fresh deployment in which a staker's own accepted stake lowers the
    staker's limit. */
module RegistryLimitDrop {
  import opened Basics
  import opened Reputation
  import opened RegistryState
  import opened RegistryHistory
  import opened RegistryScenarios

  const ADMIN := Address(10)
  const FIRST := Address(11)
  const SECOND := Address(12)

  const SETTINGS := Config(ADMIN, ADMIN, {}, 1, false, 0, false, 0, 10, LimitConfig(10_000, 0, 0))

  /** Two users stake 2 and 1 on a call of the first one. */
  function Stakes(now: nat): seq<Op> {
    [OpConfigure(SETTINGS), OpTokenActivity(NATIVE_XLM, FIRST, 3), OpTokenActivity(NATIVE_XLM, SECOND, 1),
     OpCreate(FIRST, NATIVE_XLM, 1, 1, now + 10, 2), OpStake(FIRST, FIRST, 1, 2, 1, 2, true),
     OpStake(SECOND, SECOND, 1, 1, 2, 1, true), OpClock(10)]
  }

  /** The outcome manager resolves the call again and again, each time counting for the
      creator's record. */
  function Resolutions(n: nat): seq<Op> {
    if n == 0 then [] else [OpResolve(ADMIN, 1, 1, 1)] + Resolutions(n - 1)
  }

  const ONE_MORE := OpStake(FIRST, FIRST, 2, 1, 1, 1, true)

  // ---- The first stakes ----

  lemma Funded(s: Registry)
    requires Fresh(s)
    ensures var w := Next(Next(Next(Deployed(s), OpConfigure(SETTINGS)), OpTokenActivity(NATIVE_XLM, FIRST, 3)),
                          OpTokenActivity(NATIVE_XLM, SECOND, 1));
      && w == World(s.(config := SETTINGS, balances := w.s.balances), NoHistory)
      && BalanceOf(w.s.balances, NATIVE_XLM, FIRST) == 3 && BalanceOf(w.s.balances, NATIVE_XLM, SECOND) == 1
      && BalanceOf(w.s.balances, NATIVE_XLM, CONTRACT) == BalanceOf(s.balances, NATIVE_XLM, CONTRACT)
  {
  }

  /** An open call of the first user, with nothing staked on this position. */
  predicate OpenAt(s: Registry, id: nat, position: nat) {
    && s.config == SETTINGS && id in s.calls && s.calls[id].creator == FIRST && s.now < s.calls[id].endTs
    && s.calls[id].stakeToken == NATIVE_XLM && s.calls[id].outcomeCount == 2 && !s.calls[id].hasShares
    && !s.calls[id].settled && !s.calls[id].cancelled && !s.calls[id].voided && 1 <= position <= 2
    && GetMap(s.calls[id].stakes, position) == map[] && Get(s.calls[id].outcomeStakes, position) == 0
  }

  lemma Created(w: World, id: nat)
    requires w.s.config == SETTINGS && StatsOf(w.s, FIRST).totalCreated < 2 && id == w.s.callCounter + 1
    ensures var w' := Next(w, OpCreate(FIRST, NATIVE_XLM, 1, 1, w.s.now + 10, 2));
      && w'.s == w.s.(callCounter := id, calls := w'.s.calls, global := w'.s.global, creatorStats := w'.s.creatorStats)
      && w'.s.global == w.s.global.(totalCalls := w.s.global.totalCalls + 1)
      && StatsOf(w'.s, FIRST) == StatsOf(w.s, FIRST).(totalCreated := StatsOf(w.s, FIRST).totalCreated + 1)
      && StatsOf(w'.s, SECOND) == StatsOf(w.s, SECOND)
      && (forall p :: 1 <= p <= 2 ==> OpenAt(w'.s, id, p))
      && (id in w'.s.calls && w'.s.calls[id].endTs == w.s.now + 10)
  {
    hide EmptyOutcomes, EmptyStakes;
  }

  /** A new user's limit is the base limit. */
  lemma NewUserLimit(s: Registry, user: Address)
    requires s.config == SETTINGS && StatsOf(s, user).totalResolved < 10
    ensures StakeLimit(s, user) == Some(10_000)
  {
  }

  /** A stake of one or two units as a step of the run. */
  lemma Staked(w: World, staker: Address, id: nat, position: nat, amount: int)
    requires OpenAt(w.s, id, position) && 1 <= amount <= 2 && staker != CONTRACT
    requires 0 <= w.s.global.totalStakeVolume <= 10 && 0 <= Get(w.s.volumes, staker) <= 10
    requires BalanceOf(w.s.balances, NATIVE_XLM, staker) >= amount
    requires BalanceOf(w.s.balances, NATIVE_XLM, CONTRACT) >= 0
    requires FitsI128(BalanceOf(w.s.balances, NATIVE_XLM, CONTRACT) + amount)
    requires StakeLimit(w.s, staker).Some? && amount <= StakeLimit(w.s, staker).value
    ensures var w' := Next(w, OpStake(staker, staker, id, amount, position, amount, true));
      && Stake(w.s, staker, staker, id, amount, position, amount, true).Ok? && id in w.s.calls
      && w'.s == CreditStake(w.s.(balances := Paid(w.s.balances, staker, amount)), staker, id, position, amount)
  {
    hide Stake, StakeLimit, CreditStake, Next, Paid;
    StakeIsAStep(w, staker, id, position, amount);
    StakeIsAccepted(w.s, staker, id, position, amount);
  }

  /** What the stakes and the resolutions so far leave. */
  predicate Staged(s: Registry, others: int, resolved: nat) {
    && s.config == SETTINGS && s.callCounter == 1 && 1 in s.calls
    && s.calls[1].creator == FIRST && s.calls[1].outcomeCount == 2 && !s.calls[1].voided && s.now >= s.calls[1].endTs
    && UserStake(s, 1, FIRST, 1) == 2
    && StatsOf(s, FIRST) == CreatorStats(1, resolved, resolved)
    && Get(s.volumes, FIRST) == 2 && FIRST in s.stakerSeen
    && s.global.totalStakeVolume == 3 && s.global.totalUniqueStakers == 2
    && BalanceOf(s.balances, NATIVE_XLM, FIRST) == 1 && BalanceOf(s.balances, NATIVE_XLM, CONTRACT) == others + 3
  }

  /** What the first stake leaves. */
  predicate OneStaked(s: Registry, others: int) {
    && OpenAt(s, 1, 2) && s.callCounter == 1 && s.calls[1].endTs == s.now + 10 && UserStake(s, 1, FIRST, 1) == 2
    && StatsOf(s, FIRST) == CreatorStats(1, 0, 0) && StatsOf(s, SECOND).totalResolved == 0
    && s.volumes == map[FIRST := 2] && s.stakerSeen == {FIRST}
    && s.global.totalStakeVolume == 2 && s.global.totalUniqueStakers == 1
    && BalanceOf(s.balances, NATIVE_XLM, FIRST) == 1 && BalanceOf(s.balances, NATIVE_XLM, SECOND) == 1
    && BalanceOf(s.balances, NATIVE_XLM, CONTRACT) == others + 2 && others >= 0 && FitsI128(others + 3)
  }

  lemma FirstStakes(w: World, others: int)
    requires OpenAt(w.s, 1, 1) && OpenAt(w.s, 1, 2) && w.s.callCounter == 1 && w.s.calls[1].endTs == w.s.now + 10
    requires StatsOf(w.s, FIRST) == CreatorStats(1, 0, 0) && StatsOf(w.s, SECOND).totalResolved == 0
    requires w.s.volumes == map[] && w.s.stakerSeen == {} && w.s.global == GlobalStats(1, 0, 0)
    requires BalanceOf(w.s.balances, NATIVE_XLM, FIRST) == 3 && BalanceOf(w.s.balances, NATIVE_XLM, SECOND) == 1
    requires BalanceOf(w.s.balances, NATIVE_XLM, CONTRACT) == others >= 0 && FitsI128(others + 3)
    ensures OneStaked(Next(w, OpStake(FIRST, FIRST, 1, 2, 1, 2, true)).s, others)
  {
    hide Next, StakeLimit, Paid, Stake;
    NewUserLimit(w.s, FIRST);
    Staked(w, FIRST, 1, 1, 2);
    PaidBalances(w.s.balances, FIRST, 2, FIRST);
    PaidBalances(w.s.balances, FIRST, 2, SECOND);
    PaidBalances(w.s.balances, FIRST, 2, CONTRACT);
  }

  lemma SecondStakes(w: World, others: int)
    requires OneStaked(w.s, others)
    ensures Staged(Next(Next(w, OpStake(SECOND, SECOND, 1, 1, 2, 1, true)), OpClock(10)).s, others, 0)
  {
    hide Next, StakeLimit, Paid, Stake;
    NewUserLimit(w.s, SECOND);
    Staked(w, SECOND, 1, 2, 1);
    PaidBalances(w.s.balances, SECOND, 1, FIRST);
    PaidBalances(w.s.balances, SECOND, 1, CONTRACT);
    ClockRuns(Next(w, OpStake(SECOND, SECOND, 1, 1, 2, 1, true)), 10);
  }

  lemma StakesAreStaged(s: Registry)
    requires Fresh(s) && BalanceOf(s.balances, NATIVE_XLM, CONTRACT) >= 0
    requires FitsI128(BalanceOf(s.balances, NATIVE_XLM, CONTRACT) + 4)
    ensures Staged(Run(Deployed(s), Stakes(s.now)).s, BalanceOf(s.balances, NATIVE_XLM, CONTRACT), 0)
  {
    hide Run, Next, OpenAt, Staged;
    var none: seq<Op> := [];
    var a, b := OpConfigure(SETTINGS), OpTokenActivity(NATIVE_XLM, FIRST, 3);
    var c, d := OpTokenActivity(NATIVE_XLM, SECOND, 1), OpCreate(FIRST, NATIVE_XLM, 1, 1, s.now + 10, 2);
    var e, f := OpStake(FIRST, FIRST, 1, 2, 1, 2, true), OpStake(SECOND, SECOND, 1, 1, 2, 1, true);
    var tail := [d] + ([e] + ([f] + ([OpClock(10)] + none)));
    assert Stakes(s.now) == [a] + ([b] + ([c] + tail));
    var w0 := Deployed(s);
    var w1 := Next(w0, a);
    var w2 := Next(w1, b);
    var w3 := Next(w2, c);
    var w4 := Next(w3, d);
    var w5 := Next(w4, e);
    var w6 := Next(w5, f);
    RunFirst(w0, a, [b] + ([c] + tail));
    RunFirst(w1, b, [c] + tail);
    RunFirst(w2, c, tail);
    RunFirst(w3, d, [e] + ([f] + ([OpClock(10)] + none)));
    RunFirst(w4, e, [f] + ([OpClock(10)] + none));
    RunFirst(w5, f, [OpClock(10)] + none);
    RunFirst(w6, OpClock(10), none);
    RunNothing(Next(w6, OpClock(10)));
    Funded(s);
    Created(w3, 1);
    FirstStakes(w4, BalanceOf(s.balances, NATIVE_XLM, CONTRACT));
    SecondStakes(w5, BalanceOf(s.balances, NATIVE_XLM, CONTRACT));
  }

  // ---- The track record ----

  lemma Resolved(w: World, others: int, n: nat)
    requires Staged(w.s, others, n) && n < 10
    ensures Staged(Next(w, OpResolve(ADMIN, 1, 1, 1)).s, others, n + 1)
  {
  }

  lemma {:induction false} ResolvedTimes(w: World, others: int, n: nat, more: nat)
    requires Staged(w.s, others, n) && n + more <= 10
    ensures Staged(Run(w, Resolutions(more)).s, others, n + more)
    decreases more
  {
    hide Run, Next, Staged;
    if more == 0 {
      RunNothing(w);
    } else {
      Resolved(w, others, n);
      RunFirst(w, OpResolve(ADMIN, 1, 1, 1), Resolutions(more - 1));
      ResolvedTimes(Next(w, OpResolve(ADMIN, 1, 1, 1)), others, n + 1, more - 1);
    }
  }

  // ---- The stake that lowers the limit ----

  lemma OneMoreLowersLimit(proven: World, others: int)
    requires Staged(proven.s, others, 10) && others >= 0 && FitsI128(others + 4)
    ensures var w := Next(proven, OpCreate(FIRST, NATIVE_XLM, 1, 1, proven.s.now + 10, 2));
      && Stake(w.s, FIRST, FIRST, 2, 1, 1, 1, true).Ok?
      && StakeLimit(w.s, FIRST) == Some(20_000) && StakeLimit(Next(w, ONE_MORE).s, FIRST) == Some(15_000)
  {
    hide Next, Paid, OpenAt, CreditCall, EffectiveLimit, Stake;
    var w := Next(proven, OpCreate(FIRST, NATIVE_XLM, 1, 1, proven.s.now + 10, 2));
    Created(proven, 2);
    OwnStakeCanLowerLimit(w.s.global.totalCalls, 2);
    Staked(w, FIRST, 2, 1, 1);
  }

  /** From every fresh deployment, after ten resolutions: a further stake of one unit on a
      second call is accepted and takes the staker's own limit from 20000 to 15000. */
  lemma OwnStakeLowersLimitFromDeployment(s: Registry)
    requires Fresh(s) && BalanceOf(s.balances, NATIVE_XLM, CONTRACT) >= 0
    requires FitsI128(BalanceOf(s.balances, NATIVE_XLM, CONTRACT) + 4)
    ensures var proven := Run(Run(Deployed(s), Stakes(s.now)), Resolutions(10));
      var w := Next(proven, OpCreate(FIRST, NATIVE_XLM, 1, 1, proven.s.now + 10, 2));
      && Stake(w.s, FIRST, FIRST, 2, 1, 1, 1, true).Ok?
      && StakeLimit(w.s, FIRST) == Some(20_000) && StakeLimit(Next(w, ONE_MORE).s, FIRST) == Some(15_000)
  {
    hide Run, Next, Resolutions, Stakes, Staged, Stake, StakeLimit;
    var others := BalanceOf(s.balances, NATIVE_XLM, CONTRACT);
    StakesAreStaged(s);
    ResolvedTimes(Run(Deployed(s), Stakes(s.now)), others, 0, 10);
    OneMoreLowersLimit(Run(Run(Deployed(s), Stakes(s.now)), Resolutions(10)), others);
  }
}
