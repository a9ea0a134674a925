/** What an early exit pays: nine tenths of the stake, the forfeited tenth rounded down. */
module RegistryExits {
  import opened Basics
  import opened RegistryState
  import opened RegistryHistory
  import opened RegistryLedger

  /** The refund is nine tenths of the stake, rounded up. */
  predicate NineTenths(stake: int, refund: int) {
    9 * stake <= 10 * refund < 9 * stake + 10
  }

  lemma RefundIsNineTenths(stake: int)
    requires stake >= 0
    ensures NineTenths(stake, stake - Penalty(stake)) && 0 <= Penalty(stake) <= stake
  {
  }

  /** Told from balances and records alone: who leaves a position receives nine tenths of the
      stake on record in the token of the call, the position total falls by exactly what was
      paid, and the record is cleared. */
  lemma ExitPaysNineTenths(s: Registry, staker: Address, id: nat, position: nat)
    requires WithdrawStake(s, staker, id, position).Ok? && staker != CONTRACT
    ensures id in s.calls
    ensures var s', token, stake := WithdrawStake(s, staker, id, position).value, s.calls[id].stakeToken,
                                    UserStake(s, id, staker, position);
      var paid := BalanceOf(s'.balances, token, staker) - BalanceOf(s.balances, token, staker);
      && NineTenths(stake, paid) && stake > 0
      && BalanceOf(s'.balances, token, CONTRACT) == BalanceOf(s.balances, token, CONTRACT) - paid
      && id in s'.calls
      && Get(s'.calls[id].outcomeStakes, position) == Get(s.calls[id].outcomeStakes, position) - paid
      && UserStake(s', id, staker, position) == 0 && Get(GetMap(s'.calls[id].stakes, position), staker) == 0
  {
    hide FitsI128, WithdrawStake, Penalty;
    WithdrawShape(s, staker, id, position);
    RefundIsNineTenths(UserStake(s, id, staker, position));
  }

  /** What early exits from a position have left behind and taken out so far. */
  ghost predicate ForfeitedAtMostATenth(h: History) {
    forall key :: 0 <= 9 * Get(h.forfeited, key) <= Get(h.withdrawn, key)
  }

  lemma StepForfeitsAtMostATenth(w: World, op: Op)
    requires ForfeitedAtMostATenth(w.h)
    ensures ForfeitedAtMostATenth(Next(w, op).h)
  {
    hide Execute, Penalty, UserStakeUpTo, RedemptionPayout;
    if op.OpWithdraw? && Execute(w.s, op).Ok? {
      ExitHasStake(w.s, op);
      RefundIsNineTenths(UserStake(w.s, op.call, op.staker, op.position));
    }
    forall key ensures 0 <= 9 * Get(Next(w, op).h.forfeited, key) <= Get(Next(w, op).h.withdrawn, key) {
      assert 0 <= 9 * Get(w.h.forfeited, key) <= Get(w.h.withdrawn, key);
    }
  }

  lemma ExitHasStake(s: Registry, op: Op)
    requires op.OpWithdraw? && Execute(s, op).Ok?
    ensures UserStake(s, op.call, op.staker, op.position) > 0
  {
    hide WithdrawStake;
    WithdrawShape(s, op.staker, op.call, op.position);
  }

  lemma {:induction false} RunForfeitsAtMostATenth(w: World, ops: seq<Op>)
    requires ForfeitedAtMostATenth(w.h)
    ensures ForfeitedAtMostATenth(Run(w, ops).h)
    decreases |ops|
  {
    hide Next, ForfeitedAtMostATenth;
    if ops != [] {
      StepForfeitsAtMostATenth(w, ops[0]);
      RunForfeitsAtMostATenth(Next(w, ops[0]), ops[1..]);
    }
  }

  /** Over every run: for each call and position, early exits have taken out at least nine
      times what they left behind. */
  lemma ForfeitedInEveryRun(s: Registry, ops: seq<Op>, id: nat, position: nat)
    requires Fresh(s)
    ensures var h := Run(Deployed(s), ops).h;
      0 <= 9 * Get(h.forfeited, (id, position)) <= Get(h.withdrawn, (id, position))
  {
    hide Run, Fresh;
    RunForfeitsAtMostATenth(Deployed(s), ops);
  }
}
