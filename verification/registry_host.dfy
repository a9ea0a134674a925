/** The ledger host that runs transactions against one registry contract, one at a time. */
module RegistryHost {
  import opened Basics
  import opened RegistryState
  import opened RegistryHistory
  import opened RegistryEscrow
  import RegistryContract

  class Host {
    const registry: RegistryContract.CallRegistry
    /** What the transactions so far have paid, forfeited and burned. */
    ghost var history: History

    ghost function Recorded(): World
      reads this, registry
    {
      World(registry.State(), history)
    }

    /** The ledgers, refunds and share books of the contract are in order. */
    ghost predicate Valid()
      reads this, registry
    {
      Invariant(Recorded())
    }

    constructor (registry: RegistryContract.CallRegistry)
      requires Fresh(registry.State())
      ensures this.registry == registry && Valid() && Recorded() == Deployed(registry.State())
    {
      this.registry, this.history := registry, NoHistory;
      new;
      DeployedInvariant(registry.State());
    }

    /** The entry points that write calls and stakes. */
    method CallTransaction(op: Op) returns (ok: bool)
      requires op.OpCreate? || op.OpStake? || op.OpWithdraw? || op.OpResolve? || op.OpSettle? || op.OpVoid?
      modifies registry
      ensures Ran(old(registry.State()), op, registry.State(), ok)
    {
      hide CreateCall, Stake, WithdrawStake, ResolveCall, MarkSettled, VoidCall;
      match op {
        case OpCreate(creator, token, stakeAmount, startPrice, endTs, n) =>
          var r := registry.CreateCall(creator, token, stakeAmount, startPrice, endTs, n);
          ok := r.Ok?;
        case OpStake(funder, staker, id, amount, position, delivered, qualifies) =>
          var r := registry.DoStake(funder, staker, id, amount, position, delivered, qualifies);
          ok := r.Ok?;
        case OpWithdraw(staker, id, position) =>
          var r := registry.WithdrawStake(staker, id, position);
          ok := r.Ok?;
        case OpResolve(caller, id, outcome, endPrice) =>
          var r := registry.ResolveCall(caller, id, outcome, endPrice);
          ok := r.Ok?;
        case OpSettle(caller, id) =>
          var r := registry.MarkSettled(caller, id);
          ok := r.Ok?;
        case OpVoid(caller, id) =>
          var r := registry.VoidCall(caller, id);
          ok := r.Ok?;
      }
    }

    /** The entry points that pay out or move shares. */
    method PaymentTransaction(op: Op) returns (ok: bool)
      requires op.OpVoidRefund? || op.OpExpiredRefund? || op.OpCancel? || op.OpEmergencyCancel? || op.OpRedeem?
               || op.OpTransferShares? || op.OpRelease?
      modifies registry
      ensures Ran(old(registry.State()), op, registry.State(), ok)
    {
      hide ClaimVoidRefund, ClaimExpiredRefund, CancelCall, EmergencyCancelCall, RedeemShares, TransferShares,
           ReleaseEscrow;
      match op {
        case OpVoidRefund(staker, id) =>
          var r := registry.ClaimVoidRefund(staker, id);
          ok := r.Ok?;
        case OpExpiredRefund(staker, id) =>
          var r := registry.ClaimExpiredRefund(staker, id);
          ok := r.Ok?;
        case OpCancel(creator, id) =>
          var r := registry.CancelCall(creator, id);
          ok := r.Ok?;
        case OpEmergencyCancel(caller, id) =>
          var r := registry.EmergencyCancelCall(caller, id);
          ok := r.Ok?;
        case OpRedeem(redeemer, id) =>
          var r := registry.RedeemShares(redeemer, id);
          ok := r.Ok?;
        case OpTransferShares(from, to, id, outcome, amount) =>
          var r := registry.TransferShares(from, to, id, outcome, amount);
          ok := r.Ok?;
        case OpRelease(caller, id, to, amount) =>
          var r := registry.ReleaseEscrow(caller, id, to, amount);
          ok := r.Ok?;
      }
    }

    /** An executed fee withdrawal. */
    method FeeWithdrawal(token: Address, amount: int) returns (ok: bool)
      modifies registry
      ensures Ran(old(registry.State()), OpWithdrawFees(token, amount), registry.State(), ok)
    {
      hide Transfer;
      if amount <= 0 { return false; }
      var r := registry.TransferToken(token, CONTRACT, registry.config.admin, amount);
      ok := r.Ok?;
    }

    /** What changes around the contract: settings, the clock, and token accounts. */
    method OutsideChange(op: Op) returns (ok: bool)
      requires op.OpConfigure? || op.OpClock? || op.OpTokenActivity?
      modifies registry
      ensures Ran(old(registry.State()), op, registry.State(), ok)
    {
      hide SetBalance;
      ok := true;
      match op {
        case OpConfigure(config) => registry.config := config;
        case OpClock(elapsed) => registry.now := registry.now + elapsed;
        case OpTokenActivity(token, holder, balance) =>
          if balance < 0 || (holder == CONTRACT && balance < BalanceOf(registry.balances, token, CONTRACT)) {
            return false;
          }
          registry.balances := SetBalance(registry.balances, token, holder, balance);
      }
    }

    /** One transaction: a step of the state machine that leaves every ledger in order. */
    method Transact(op: Op) returns (ok: bool)
      requires Valid()
      modifies this`history, registry
      ensures Valid() && Recorded() == Next(old(Recorded()), op)
      ensures ok <==> Execute(old(registry.State()), op).Ok?
    {
      hide Execute, Invariant, RegistryHistory.Recorded;
      ghost var before := Recorded();
      if op.OpCreate? || op.OpStake? || op.OpWithdraw? || op.OpResolve? || op.OpSettle? || op.OpVoid? {
        ok := CallTransaction(op);
      } else if op.OpVoidRefund? || op.OpExpiredRefund? || op.OpCancel? || op.OpEmergencyCancel? || op.OpRedeem?
                || op.OpTransferShares? || op.OpRelease? {
        ok := PaymentTransaction(op);
      } else if op.OpWithdrawFees? {
        ok := FeeWithdrawal(op.token, op.amount);
      } else {
        ok := OutsideChange(op);
      }
      if ok {
        history := RegistryHistory.Recorded(before.s, before.h, op);
      }
      assert Recorded() == Next(before, op);
      StepKeepsInvariant(before, op);
    }
  }

  /** A transaction either took the step that the state machine prescribes or left no trace. */
  predicate Ran(before: Registry, op: Op, after: Registry, ok: bool) {
    if ok then Execute(before, op) == Ok(after) else Execute(before, op).Err? && after == before
  }
}
