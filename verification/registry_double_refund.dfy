/** A run from any fresh deployment in which one staker is refunded twice out of another
    staker's money. */
module RegistryDoubleRefund {
  import opened Basics
  import opened Reputation
  import opened RegistryState
  import opened RegistryHistory
  import opened RegistryLedger
  import opened RegistryRefunds
  import opened RegistryScenarios

  const ADMIN := Address(10)
  const FIRST := Address(11)
  const SECOND := Address(12)

  const SETTINGS := Config(ADMIN, ADMIN, {}, 1, false, 0, false, 0, 10, LimitConfig(0, 0, 0))

  /** Two stakers put 100 each on the two outcomes of one call, the call expires, the first
      staker claims the expiry refund, the admin voids the call, the first staker claims the
      void refund. */
  function Setup(now: nat): seq<Op> {
    [OpConfigure(SETTINGS), OpTokenActivity(NATIVE_XLM, FIRST, 100), OpTokenActivity(NATIVE_XLM, SECOND, 100),
     OpCreate(FIRST, NATIVE_XLM, 1, 1, now + 10, 2), OpStake(FIRST, FIRST, 1, 100, 1, 100, true),
     OpStake(SECOND, SECOND, 1, 100, 2, 100, true), OpClock(11)]
  }

  const REFUNDS: seq<Op> := [OpExpiredRefund(FIRST, 1), OpVoid(ADMIN, 1), OpVoidRefund(FIRST, 1)]

  // ---- Staking is accepted under these settings ----

  /** An open call of these settings, with small books. */
  predicate Open(s: Registry) {
    && s.config == SETTINGS && 1 in s.calls && s.now < s.calls[1].endTs
    && s.calls[1].stakeToken == NATIVE_XLM && s.calls[1].outcomeCount == 2 && !s.calls[1].hasShares
    && !s.calls[1].settled && !s.calls[1].cancelled && !s.calls[1].voided
    && 0 <= s.global.totalStakeVolume <= 1000
  }

  lemma NoLimit(stats: CreatorStats, volume: int, global: GlobalStats)
    ensures EffectiveLimit(SETTINGS.limits, stats, volume, global) == Some(I128_MAX)
  {
  }

  // ---- The run ----

  /** Fresh, with 100 units of XLM for each staker and the settings in place. */
  lemma Funded(s: Registry)
    requires Fresh(s)
    ensures var w := Next(Next(Next(Deployed(s), OpConfigure(SETTINGS)), OpTokenActivity(NATIVE_XLM, FIRST, 100)),
                          OpTokenActivity(NATIVE_XLM, SECOND, 100));
      && w == World(s.(config := SETTINGS, balances := w.s.balances), NoHistory)
      && BalanceOf(w.s.balances, NATIVE_XLM, FIRST) == 100 && BalanceOf(w.s.balances, NATIVE_XLM, SECOND) == 100
      && BalanceOf(w.s.balances, NATIVE_XLM, CONTRACT) == BalanceOf(s.balances, NATIVE_XLM, CONTRACT)
  {
  }

  lemma Created(w: World)
    requires Fresh(w.s) && w.s.config == SETTINGS
    ensures var w' := Next(w, OpCreate(FIRST, NATIVE_XLM, 1, 1, w.s.now + 10, 2));
      && w'.h == w.h && w'.s == w.s.(callCounter := 1, calls := w'.s.calls, global := GlobalStats(1, 0, 0),
                                     creatorStats := w'.s.creatorStats)
      && w'.s.calls == map[1 := Call(FIRST, NATIVE_XLM, 1, w.s.now + 10, 2, EmptyOutcomes(2), EmptyStakes(2), 0, 0,
                                     false, false, false, false)]
  {
    hide EmptyOutcomes, EmptyStakes;
  }

  /** Staking as one step of the run. */
  lemma Staked(w: World, staker: Address, position: nat)
    requires Open(w.s) && 1 <= position <= 2 && staker != CONTRACT
    requires Get(GetMap(w.s.calls[1].stakes, position), staker) == 0 && Get(w.s.volumes, staker) == 0
    requires Get(w.s.calls[1].outcomeStakes, position) == 0 && BalanceOf(w.s.balances, NATIVE_XLM, staker) == 100
    requires BalanceOf(w.s.balances, NATIVE_XLM, CONTRACT) >= 0
    requires FitsI128(BalanceOf(w.s.balances, NATIVE_XLM, CONTRACT) + 100)
    ensures var w' := Next(w, OpStake(staker, staker, 1, 100, position, 100, true));
      && w'.h == w.h && 1 in w'.s.calls
      && w'.s.calls[1] == CreditCall(w.s.calls[1], staker, position, 100)
      && w'.s.config == w.s.config && w'.s.now == w.s.now
      && w'.s.userStakes == w.s.userStakes[StakeKey(1, staker, position) := 100]
      && w'.s.volumes == w.s.volumes[staker := 100]
      && w'.s.global.totalStakeVolume == w.s.global.totalStakeVolume + 100
      && w'.s.voidClaimed == w.s.voidClaimed && w'.s.expiredClaimed == w.s.expiredClaimed
      && (forall a :: BalanceOf(w'.s.balances, NATIVE_XLM, a)
                      == if a == staker then 0
                         else BalanceOf(w.s.balances, NATIVE_XLM, a) + if a == CONTRACT then 100 else 0)
  {
    hide Stake, CreditCall, EffectiveLimit, Next, Paid;
    NoLimit(StatsOf(w.s, staker), Get(w.s.volumes, staker), w.s.global);
    StakeIsAStep(w, staker, 1, position, 100);
    forall a ensures BalanceOf(Paid(w.s.balances, staker, 100), NATIVE_XLM, a)
                     == BalanceOf(w.s.balances, NATIVE_XLM, a) - (if a == staker then 100 else 0)
                        + if a == CONTRACT then 100 else 0 {
      PaidBalances(w.s.balances, staker, 100, a);
    }
  }

  /** What the two stakes leave, seen after the call has ended. */
  predicate Expired(s: Registry, others: int) {
    && s.config == SETTINGS && 1 in s.calls && s.calls[1].endTs < s.now && s.now <= U64_MAX
    && s.calls[1].stakeToken == NATIVE_XLM && s.calls[1].outcomeCount == 2
    && !s.calls[1].settled && !s.calls[1].voided
    && UserStake(s, 1, FIRST, 1) == UserStake(s, 1, SECOND, 2) == 100
    && UserStake(s, 1, FIRST, 2) == UserStake(s, 1, SECOND, 1) == 0
    && s.voidClaimed == {} && s.expiredClaimed == {}
    && BalanceOf(s.balances, NATIVE_XLM, CONTRACT) == others + 200
    && BalanceOf(s.balances, NATIVE_XLM, FIRST) == 0 && others >= 0
  }

  lemma SetupExpires(s: Registry)
    requires Fresh(s) && s.now + 11 <= U64_MAX && BalanceOf(s.balances, NATIVE_XLM, CONTRACT) >= 0
    requires FitsI128(BalanceOf(s.balances, NATIVE_XLM, CONTRACT) + 200)
    ensures var w := Run(Deployed(s), Setup(s.now));
      w.h == NoHistory && Expired(w.s, BalanceOf(s.balances, NATIVE_XLM, CONTRACT))
  {
    hide Run, Next, Open;
    var none: seq<Op> := [];
    var a, b := OpConfigure(SETTINGS), OpTokenActivity(NATIVE_XLM, FIRST, 100);
    var c, d := OpTokenActivity(NATIVE_XLM, SECOND, 100), OpCreate(FIRST, NATIVE_XLM, 1, 1, s.now + 10, 2);
    var e, f := OpStake(FIRST, FIRST, 1, 100, 1, 100, true), OpStake(SECOND, SECOND, 1, 100, 2, 100, true);
    var g := OpClock(11);
    var tail := [d] + ([e] + ([f] + ([g] + none)));
    assert Setup(s.now) == [a] + ([b] + ([c] + tail));
    var w0 := Deployed(s);
    var w1 := Next(w0, a);
    var w2 := Next(w1, b);
    var w3 := Next(w2, c);
    var w4 := Next(w3, d);
    var w5 := Next(w4, e);
    var w6 := Next(w5, f);
    RunFirst(w0, a, [b] + ([c] + tail));
    RunFirst(w1, b, [c] + tail);
    RunFirst(w2, c, tail);
    RunFirst(w3, d, [e] + ([f] + ([g] + none)));
    RunFirst(w4, e, [f] + ([g] + none));
    RunFirst(w5, f, [g] + none);
    RunFirst(w6, g, none);
    RunNothing(Next(w6, g));
    Funded(s);
    Created(w3);
    OpenForFirst(w4.s);
    Staked(w4, FIRST, 1);
    OpenForSecond(w4.s, w5.s);
    Staked(w5, SECOND, 2);
    ClockRuns(w6, 11);
    BooksAfterBoth(w4.s, w5.s, w6.s);
  }

  lemma OpenForFirst(s: Registry)
    requires s.config == SETTINGS && s.global.totalStakeVolume == 0
    requires s.calls == map[1 := Call(FIRST, NATIVE_XLM, 1, s.now + 10, 2, EmptyOutcomes(2), EmptyStakes(2), 0, 0,
                                      false, false, false, false)]
    ensures Open(s)
    ensures forall p: nat, a :: 1 <= p <= 2 ==> Get(GetMap(s.calls[1].stakes, p), a) == 0
                                                && Get(s.calls[1].outcomeStakes, p) == 0
  {
    hide EmptyOutcomes, EmptyStakes;
    var c := s.calls[1];
    forall p: nat, a | 1 <= p <= 2 ensures Get(GetMap(c.stakes, p), a) == 0 && Get(c.outcomeStakes, p) == 0 {
      assert c.stakes[p] == map[];
    }
  }

  lemma OpenForSecond(s: Registry, s': Registry)
    requires Open(s) && 1 in s'.calls && s'.calls[1] == CreditCall(s.calls[1], FIRST, 1, 100)
    requires s'.config == s.config && s'.now == s.now
    requires s'.global.totalStakeVolume == 100
    ensures Open(s')
    ensures GetMap(s'.calls[1].stakes, 2) == GetMap(s.calls[1].stakes, 2)
    ensures Get(s'.calls[1].outcomeStakes, 2) == Get(s.calls[1].outcomeStakes, 2)
  {
  }

  lemma BooksAfterBoth(s: Registry, s': Registry, s'': Registry)
    requires Open(s) && s.userStakes == map[] && 1 in s'.calls && 1 in s''.calls
    requires s'.calls[1] == CreditCall(s.calls[1], FIRST, 1, 100)
    requires s''.calls[1] == CreditCall(s'.calls[1], SECOND, 2, 100)
    requires s'.userStakes == s.userStakes[StakeKey(1, FIRST, 1) := 100]
    requires s''.userStakes == s'.userStakes[StakeKey(1, SECOND, 2) := 100]
    ensures var c := s''.calls[1];
      && c.stakeToken == NATIVE_XLM && c.outcomeCount == 2 && !c.settled && !c.voided && c.endTs == s.calls[1].endTs
    ensures UserStake(s'', 1, FIRST, 1) == UserStake(s'', 1, SECOND, 2) == 100
    ensures UserStake(s'', 1, FIRST, 2) == UserStake(s'', 1, SECOND, 1) == 0
  {
  }

  lemma FirstRefund(w: World, others: int)
    requires Expired(w.s, others) && w.h == NoHistory
    ensures var w' := Next(w, OpExpiredRefund(FIRST, 1));
      && w'.s == w.s.(expiredClaimed := {(1, FIRST)}, balances := w'.s.balances)
      && w'.h == NoHistory.(expiredRefunds := map[1 := map[FIRST := 100]])
      && BalanceOf(w'.s.balances, NATIVE_XLM, CONTRACT) == others + 100
      && BalanceOf(w'.s.balances, NATIVE_XLM, FIRST) == 100
  {
    UnfoldsToTwo(w.s, 1, FIRST);
    ExpiredTotal(w.s, 1, FIRST);
  }

  lemma ExpiredTotal(s: Registry, id: nat, a: Address)
    requires id in s.calls && s.calls[id].outcomeCount == 2
    ensures UserStakeUpTo(s, id, a, s.calls[id].outcomeCount) == UserStake(s, id, a, 1) + UserStake(s, id, a, 2)
  {
    UnfoldsToTwo(s, id, a);
  }

  lemma Voided(w: World)
    requires w.s.config == SETTINGS && 1 in w.s.calls && !w.s.calls[1].voided && !w.s.calls[1].settled
    ensures Next(w, OpVoid(ADMIN, 1)) == World(w.s.(calls := w.s.calls[1 := w.s.calls[1].(voided := true)]), w.h)
  {
  }

  lemma SecondRefund(w: World, others: int)
    requires 1 in w.s.calls && w.s.calls[1].voided && w.s.voidClaimed == {} && w.s.calls[1].stakeToken == NATIVE_XLM
    requires UserStake(w.s, 1, FIRST, 1) == 100 && UserStake(w.s, 1, FIRST, 2) == 0 && w.h.voidRefunds == map[]
    requires BalanceOf(w.s.balances, NATIVE_XLM, CONTRACT) == others + 100 && others >= 0
    requires BalanceOf(w.s.balances, NATIVE_XLM, FIRST) == 100
    ensures var w' := Next(w, OpVoidRefund(FIRST, 1));
      && w'.s == w.s.(voidClaimed := {(1, FIRST)}, balances := w'.s.balances)
      && w'.h == w.h.(voidRefunds := map[1 := map[FIRST := 100]])
      && BalanceOf(w'.s.balances, NATIVE_XLM, CONTRACT) == others
      && BalanceOf(w'.s.balances, NATIVE_XLM, FIRST) == 200
  {
    UnfoldsToTwo(w.s, 1, FIRST);
  }

  lemma ThirdIsRefusedIff(s: Registry)
    requires 1 in s.calls && s.calls[1].voided && s.voidClaimed == {(1, FIRST)} && s.calls[1].stakeToken == NATIVE_XLM
    requires UserStake(s, 1, SECOND, 2) == 100 && UserStake(s, 1, SECOND, 1) == 0
    ensures ClaimVoidRefund(s, SECOND, 1) == Err(InsufficientFunds)
            <==> BalanceOf(s.balances, NATIVE_XLM, CONTRACT) < 100
  {
  }

  /** From every fresh deployment: the first staker put in 100 and is refunded 200, and the
      second staker's refund is refused for lack of funds exactly when the contract had less
      than 100 of its own. */
  lemma RefundedTwiceFromDeployment(s: Registry)
    requires Fresh(s) && s.now + 11 <= U64_MAX && BalanceOf(s.balances, NATIVE_XLM, CONTRACT) >= 0
    requires FitsI128(BalanceOf(s.balances, NATIVE_XLM, CONTRACT) + 200)
    ensures var w := Run(Run(Deployed(s), Setup(s.now)), REFUNDS);
      && RefundedTo(w.h, 1, FIRST) == BalanceOf(w.s.balances, NATIVE_XLM, FIRST) == 200
      && UserStakeUpTo(w.s, 1, FIRST, 2) == 100
      && (ClaimVoidRefund(w.s, SECOND, 1) == Err(InsufficientFunds)
          <==> BalanceOf(s.balances, NATIVE_XLM, CONTRACT) < 100)
  {
    hide Run, Next, Setup;
    var others := BalanceOf(s.balances, NATIVE_XLM, CONTRACT);
    var none: seq<Op> := [];
    var w0 := Run(Deployed(s), Setup(s.now));
    var a, b, c := OpExpiredRefund(FIRST, 1), OpVoid(ADMIN, 1), OpVoidRefund(FIRST, 1);
    assert REFUNDS == [a] + ([b] + ([c] + none));
    SetupExpires(s);
    var w1 := Next(w0, a);
    var w2 := Next(w1, b);
    RunFirst(w0, a, [b] + ([c] + none));
    RunFirst(w1, b, [c] + none);
    RunFirst(w2, c, none);
    RunNothing(Next(w2, c));
    FirstRefund(w0, others);
    Voided(w1);
    SecondRefund(w2, others);
    UnfoldsToTwo(Next(w2, c).s, 1, FIRST);
    ThirdIsRefusedIff(Next(w2, c).s);
  }
}
