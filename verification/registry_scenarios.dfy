/** Steps shared by the runs that show a property fail from deployment on. */
module RegistryScenarios {
  import opened Basics
  import opened RegistryState
  import opened RegistryHistory

  lemma RunFirst(w: World, op: Op, rest: seq<Op>)
    ensures Run(w, [op] + rest) == Run(Next(w, op), rest)
  {
    assert ([op] + rest)[1..] == rest;
  }

  lemma RunNothing(w: World)
    ensures Run(w, []) == w
  {
  }

  lemma ClockRuns(w: World, elapsed: nat)
    ensures Next(w, OpClock(elapsed)) == World(w.s.(now := w.s.now + elapsed), w.h)
  {
  }

  /** A first stake of a small native amount on an open call without share tokens, within
      the staker's limit. */
  predicate Staking(s: Registry, staker: Address, id: nat, position: nat, amount: int) {
    && !s.config.paused && s.config.minStake <= amount && s.config.stakingCutoff == 0 && 0 < amount <= 100
    && id in s.calls && s.now < s.calls[id].endTs && s.calls[id].stakeToken == NATIVE_XLM
    && 1 <= position <= s.calls[id].outcomeCount && !s.calls[id].hasShares
    && !s.calls[id].settled && !s.calls[id].cancelled && !s.calls[id].voided
    && Get(GetMap(s.calls[id].stakes, position), staker) == 0 && Get(s.calls[id].outcomeStakes, position) == 0
    && 0 <= s.global.totalStakeVolume <= 1000 && 0 <= Get(s.volumes, staker) <= 1000
    && staker != CONTRACT && BalanceOf(s.balances, NATIVE_XLM, staker) >= amount
    && BalanceOf(s.balances, NATIVE_XLM, CONTRACT) >= 0
    && FitsI128(BalanceOf(s.balances, NATIVE_XLM, CONTRACT) + amount)
    && StakeLimit(s, staker).Some? && amount <= StakeLimit(s, staker).value
  }

  function Paid(b: Balances, staker: Address, amount: int): Balances {
    SetBalance(SetBalance(b, NATIVE_XLM, staker, BalanceOf(b, NATIVE_XLM, staker) - amount), NATIVE_XLM, CONTRACT,
               BalanceOf(b, NATIVE_XLM, CONTRACT) + amount)
  }

  lemma StakeIsAccepted(s: Registry, staker: Address, id: nat, position: nat, amount: int)
    requires Staking(s, staker, id, position, amount)
    ensures Stake(s, staker, staker, id, amount, position, amount, true)
            == Ok(CreditStake(s.(balances := Paid(s.balances, staker, amount)), staker, id, position, amount))
  {
    hide StakeLimit, CreditStake;
    assert StakeRefusal(s, staker, id, amount, position, true) == None;
  }

  lemma StakeIsAStep(w: World, staker: Address, id: nat, position: nat, amount: int)
    requires Staking(w.s, staker, id, position, amount)
    ensures Next(w, OpStake(staker, staker, id, amount, position, amount, true))
            == World(CreditStake(w.s.(balances := Paid(w.s.balances, staker, amount)), staker, id, position, amount),
                     w.h)
  {
    hide Stake, CreditStake, Staking;
    assert id in w.s.calls by { StakingHasCall(w.s, staker, id, position, amount); }
    StakeIsAccepted(w.s, staker, id, position, amount);
  }

  lemma StakingHasCall(s: Registry, staker: Address, id: nat, position: nat, amount: int)
    requires Staking(s, staker, id, position, amount)
    ensures id in s.calls
  {
  }

  /** Paying moves the amount to the contract and leaves everybody else alone. */
  lemma PaidBalances(b: Balances, staker: Address, amount: int, a: Address)
    requires staker != CONTRACT
    ensures BalanceOf(Paid(b, staker, amount), NATIVE_XLM, a)
            == BalanceOf(b, NATIVE_XLM, a) - (if a == staker then amount else 0) + if a == CONTRACT then amount else 0
  {
  }
}
