/** Whose tokens and shares a transaction moves, and that nothing appears or vanishes on the
    way. */
module RegistryMovements {
  import opened Basics
  import opened Arithmetic
  import opened Sums
  import opened RegistryState
  import opened RegistryHistory
  import opened RegistryLedger
  import opened RegistryRefunds
  import opened RegistryExits

  // ---- Tokens ----

  datatype Movement = Movement(token: Address, from: Address, to: Address, amount: int)

  /** What an account gains in a token by a movement; both sides of it may be one account. */
  function GainOf(m: Movement, token: Address, a: Address): int {
    if token != m.token then 0 else (if a == m.to then m.amount else 0) - if a == m.from then m.amount else 0
  }

  /** Who pays whom: stakes go to the contract; exits, refunds, cancellations, redemptions,
      releases and fees come out of it. */
  function Parties(s: Registry, op: Op): Option<(Address, Address)>
  {
    match op
    case OpStake(funder, _, _, _, _, _, _) => Some((funder, CONTRACT))
    case OpWithdraw(staker, _, _) => Some((CONTRACT, staker))
    case OpVoidRefund(staker, _) => Some((CONTRACT, staker))
    case OpExpiredRefund(staker, _) => Some((CONTRACT, staker))
    case OpCancel(creator, _) => Some((CONTRACT, creator))
    case OpEmergencyCancel(_, id) => if id in s.calls then Some((CONTRACT, s.calls[id].creator)) else None
    case OpRedeem(redeemer, _) => Some((CONTRACT, redeemer))
    case OpRelease(_, _, to, _) => Some((CONTRACT, to))
    case OpWithdrawFees(_, _) => Some((CONTRACT, s.config.admin))
    case _ => None
  }

  function TokenMoved(s: Registry, op: Op): Address {
    if op.OpWithdrawFees? then op.token
    else if (op.OpStake? || op.OpWithdraw? || op.OpVoidRefund? || op.OpExpiredRefund? || op.OpCancel?
             || op.OpEmergencyCancel? || op.OpRedeem? || op.OpRelease?) && op.call in s.calls
    then s.calls[op.call].stakeToken
    else NATIVE_XLM
  }

  /** Every account gains exactly what the movement brings it. */
  ghost predicate Moved(b: Balances, b': Balances, m: Movement) {
    forall token, a :: BalanceOf(b', token, a) == BalanceOf(b, token, a) + GainOf(m, token, a)
  }

  lemma TransferIsMovement(b: Balances, token: Address, from: Address, to: Address, amount: int)
    requires Transfer(b, token, from, to, amount).Ok?
    ensures Moved(b, Transfer(b, token, from, to, amount).value, Movement(token, from, to, amount)) && amount >= 0
  {
  }

  /** A payment out of the contract in the token of a call. */
  predicate PaysOut(op: Op) {
    op.OpWithdraw? || op.OpVoidRefund? || op.OpExpiredRefund? || op.OpCancel? || op.OpEmergencyCancel? || op.OpRedeem?
    || op.OpRelease? || op.OpWithdrawFees?
  }

  /** The amount that a payment owes its receiver: nine tenths of a stake, the records that a
      refund reads, the stake amount of a cancelled call, the rounded worth of the shares, or
      what the caller asked for. */
  predicate AmountDue(s: Registry, op: Op, amount: int) {
    match op
    case OpWithdraw(staker, id, position) => NineTenths(UserStake(s, id, staker, position), amount)
    case OpVoidRefund(staker, id) => amount == UserStake(s, id, staker, 1) + UserStake(s, id, staker, 2)
    case OpExpiredRefund(staker, id) =>
      id in s.calls && amount == UserStakeUpTo(s, id, staker, s.calls[id].outcomeCount)
    case OpCancel(_, id) => id in s.calls && amount == s.calls[id].stakeAmount
    case OpEmergencyCancel(_, id) => id in s.calls && amount == s.calls[id].stakeAmount
    case OpRedeem(redeemer, id) =>
      && id in s.calls
      && var c := s.calls[id];
         var worth, winning := ShareBalance(s, id, c.outcome, redeemer) * Pot(c), Get(c.outcomeStakes, c.outcome);
         amount * winning <= worth < (amount + 1) * winning
    case OpRelease(_, _, _, released) => amount == released
    case OpWithdrawFees(_, withdrawn) => amount == withdrawn
    case _ => false
  }

  lemma PayoutIsRounded(s: Registry, redeemer: Address, id: nat)
    requires RedeemShares(s, redeemer, id).Ok?
    ensures AmountDue(s, OpRedeem(redeemer, id), RedemptionPayout(s, redeemer, id))
  {
    hide Pot, FitsI128, Transfer;
    var c := s.calls[id];
    DivBounds(ShareBalance(s, id, c.outcome, redeemer) * Pot(c), Get(c.outcomeStakes, c.outcome));
  }

  /** Every transaction that pays moves what is due, in one token, from the contract to the
      party it is due to, and no other balance changes. */
  lemma PaymentsMove(s: Registry, op: Op) returns (amount: int)
    requires PaysOut(op) && Execute(s, op).Ok?
    ensures Parties(s, op).Some? && Parties(s, op).value.0 == CONTRACT
    ensures amount >= 0 && AmountDue(s, op, amount)
    ensures Moved(s.balances, Execute(s, op).value.balances,
                  Movement(TokenMoved(s, op), CONTRACT, Parties(s, op).value.1, amount))
  {
    hide Transfer, FitsI128, UserStakeUpTo, Payout, Pot, Moved, Penalty, NineTenths;
    match op
    case OpWithdraw(staker, id, position) =>
      WithdrawShape(s, staker, id, position);
      amount := UserStake(s, id, staker, position) - Penalty(UserStake(s, id, staker, position));
      RefundIsNineTenths(UserStake(s, id, staker, position));
      TransferIsMovement(s.balances, s.calls[id].stakeToken, CONTRACT, staker, amount);
    case OpVoidRefund(staker, id) =>
      VoidRefundShape(s, staker, id);
      amount := UserStakeUpTo(s, id, staker, 2);
      UnfoldsToTwo(s, id, staker);
      TransferIsMovement(s.balances, s.calls[id].stakeToken, CONTRACT, staker, amount);
    case OpExpiredRefund(staker, id) =>
      ExpiredRefundShape(s, staker, id);
      amount := UserStakeUpTo(s, id, staker, s.calls[id].outcomeCount);
      TransferIsMovement(s.balances, s.calls[id].stakeToken, CONTRACT, staker, amount);
    case OpCancel(creator, id) =>
      CancelShape(s, creator, id);
      amount := s.calls[id].stakeAmount;
      TransferIsMovement(s.balances, s.calls[id].stakeToken, CONTRACT, creator, amount);
    case OpEmergencyCancel(caller, id) =>
      EmergencyCancelShape(s, caller, id);
      amount := s.calls[id].stakeAmount;
      TransferIsMovement(s.balances, s.calls[id].stakeToken, CONTRACT, s.calls[id].creator, amount);
    case OpRedeem(redeemer, id) =>
      RedeemShape(s, redeemer, id);
      amount := RedemptionPayout(s, redeemer, id);
      PayoutIsRounded(s, redeemer, id);
      TransferIsMovement(s.balances, s.calls[id].stakeToken, CONTRACT, redeemer, amount);
    case OpRelease(caller, id, to, released) =>
      amount := released;
      TransferIsMovement(s.balances, s.calls[id].stakeToken, CONTRACT, to, amount);
    case OpWithdrawFees(token, withdrawn) =>
      amount := withdrawn;
      TransferIsMovement(s.balances, token, CONTRACT, s.config.admin, amount);
  }

  lemma DepositMoves(b: Balances, token: Address, funder: Address, amount: int, delivered: int)
    requires Deposit(b, token, funder, amount, delivered).Ok? && token != NATIVE_XLM
    ensures var b' := Deposit(b, token, funder, amount, delivered).value;
      forall t, a :: BalanceOf(b', t, a)
        == BalanceOf(b, t, a) + (if t == token && a == CONTRACT then delivered else 0)
           - if t == token && a == funder && a != CONTRACT then amount else 0
  {
    hide FitsI128;
  }

  /** A native stake moves its amount from the funder to the contract; any other token takes
      the amount from the funder and brings the contract whatever it delivers. */
  lemma StakesMove(s: Registry, op: Op)
    requires op.OpStake? && Execute(s, op).Ok?
    ensures op.call in s.calls
    ensures var token, b, b' := s.calls[op.call].stakeToken, s.balances, Execute(s, op).value.balances;
      && (token == NATIVE_XLM ==> Moved(b, b', Movement(token, op.funder, CONTRACT, op.amount)))
      && (token != NATIVE_XLM ==>
            forall t, a :: BalanceOf(b', t, a)
              == BalanceOf(b, t, a) + (if t == token && a == CONTRACT then op.delivered else 0)
                 - if t == token && a == op.funder && a != CONTRACT then op.amount else 0)
  {
    hide Stake, CreditStake, StakeLimit, Moved, BalanceOf, Transfer;
    StakeShape(s, op.funder, op.staker, op.call, op.amount, op.position, op.delivered, op.qualifies);
    var token := s.calls[op.call].stakeToken;
    if token == NATIVE_XLM {
      TransferIsMovement(s.balances, token, op.funder, CONTRACT, op.amount);
    } else {
      DepositMoves(s.balances, token, op.funder, op.amount, op.delivered);
    }
  }

  /** The staker's record rises by what reached the contract, but by no more than the amount
      asked for; nobody else's record changes. */
  lemma StakeIsCredited(w: World, op: Op, user: Address, id: nat, position: nat)
    requires Books(w) && op.OpStake? && Execute(w.s, op).Ok? && op.funder != CONTRACT
    ensures op.call in w.s.calls
    ensures var s', token := Execute(w.s, op).value, w.s.calls[op.call].stakeToken;
      var arrived := BalanceOf(s'.balances, token, CONTRACT) - BalanceOf(w.s.balances, token, CONTRACT);
      UserStake(s', id, user, position) - UserStake(w.s, id, user, position)
      == if user == op.staker && id == op.call && position == op.position
         then if arrived <= op.amount then arrived else op.amount
         else 0
  {
    hide Stake, CreditCall, Minted, Counted, StakeLimit, Books;
    StakeShape(w.s, op.funder, op.staker, op.call, op.amount, op.position, op.delivered, op.qualifies);
    RecordIsEntry(w, op.staker, op.call, op.position);
  }

  /** No other transaction of the registry moves a token. */
  lemma NothingElseMoves(s: Registry, op: Op)
    requires Execute(s, op).Ok? && !PaysOut(op) && !op.OpStake? && !op.OpTokenActivity?
    ensures Execute(s, op).value.balances == s.balances
  {
    hide EmptyOutcomes, EmptyStakes;
  }

  // ---- Conservation ----

  /** All of a token that any account holds. */
  ghost function TotalOf(b: Balances, token: Address): int {
    Sum(GetMap(b, token))
  }

  lemma MovementConserves(b: Balances, b': Balances, m: Movement, token: Address)
    requires Moved(b, b', m)
    ensures TotalOf(b', token) == TotalOf(b, token)
  {
    hide Sum;
    var before, after := GetMap(b, token), GetMap(b', token);
    if token == m.token {
      var debited := before[m.from := Get(before, m.from) - m.amount];
      var credited := debited[m.to := Get(debited, m.to) + m.amount];
      SumUpdate(before, m.from, Get(before, m.from) - m.amount);
      SumUpdate(debited, m.to, Get(debited, m.to) + m.amount);
      forall a ensures Get(after, a) == Get(credited, a) {
        assert BalanceOf(b', token, a) == BalanceOf(b, token, a) + GainOf(m, token, a);
      }
      SumSame(after, credited);
    } else {
      forall a ensures Get(after, a) == Get(before, a) {
        assert BalanceOf(b', token, a) == BalanceOf(b, token, a) + GainOf(m, token, a);
      }
      SumSame(after, before);
    }
  }

  /** No transaction of the registry creates or destroys native XLM. */
  lemma StepConservesNative(s: Registry, op: Op)
    requires Execute(s, op).Ok? && !op.OpTokenActivity?
    ensures TotalOf(Execute(s, op).value.balances, NATIVE_XLM) == TotalOf(s.balances, NATIVE_XLM)
  {
    hide Execute, Moved, TotalOf;
    var b' := Execute(s, op).value.balances;
    if PaysOut(op) {
      var amount := PaymentsMove(s, op);
      MovementConserves(s.balances, b', Movement(TokenMoved(s, op), CONTRACT, Parties(s, op).value.1, amount),
                        NATIVE_XLM);
    } else if op.OpStake? {
      StakesMove(s, op);
      if s.calls[op.call].stakeToken == NATIVE_XLM {
        MovementConserves(s.balances, b', Movement(NATIVE_XLM, op.funder, CONTRACT, op.amount), NATIVE_XLM);
      } else {
        OtherTokenSameNative(s.balances, b');
      }
    } else {
      NothingElseMoves(s, op);
    }
  }

  lemma OtherTokenSameNative(b: Balances, b': Balances)
    requires forall a :: BalanceOf(b', NATIVE_XLM, a) == BalanceOf(b, NATIVE_XLM, a)
    ensures TotalOf(b', NATIVE_XLM) == TotalOf(b, NATIVE_XLM)
  {
    hide Sum;
    forall a ensures Get(GetMap(b', NATIVE_XLM), a) == Get(GetMap(b, NATIVE_XLM), a) {
      assert BalanceOf(b', NATIVE_XLM, a) == BalanceOf(b, NATIVE_XLM, a);
    }
    SumSame(GetMap(b', NATIVE_XLM), GetMap(b, NATIVE_XLM));
  }

  /** Over every run: what all accounts hold of XLM changes only by activity outside the
      registry. */
  lemma {:induction false} RunConservesNative(w: World, ops: seq<Op>)
    requires forall op :: op in ops ==> !op.OpTokenActivity?
    ensures TotalOf(Run(w, ops).s.balances, NATIVE_XLM) == TotalOf(w.s.balances, NATIVE_XLM)
    decreases |ops|
  {
    hide Execute, TotalOf, Recorded;
    if ops != [] {
      assert ops[0] in ops;
      if Execute(w.s, ops[0]).Ok? {
        StepConservesNative(w.s, ops[0]);
      }
      RunConservesNative(Next(w, ops[0]), ops[1..]);
    }
  }

  // ---- Shares ----

  /** What a holder gains in shares of one outcome: what stakes on it are credited with, and
      what is transferred; a redemption takes all shares of the winning outcome. */
  function SharesGained(s: Registry, op: Op, s': Registry, id: nat, outcome: nat, a: Address): int {
    match op
    case OpStake(_, staker, call, _, position, _, _) =>
      if call == id && position == outcome && staker == a && id in s.calls && s.calls[id].hasShares
      then UserStake(s', id, a, outcome) - UserStake(s, id, a, outcome) else 0
    case OpRedeem(redeemer, call) =>
      if call == id && redeemer == a && id in s.calls && s.calls[id].outcome == outcome
      then -ShareBalance(s, id, outcome, a) else 0
    case OpTransferShares(from, to, call, p, amount) =>
      if call == id && p == outcome then (if a == to then amount else 0) - if a == from then amount else 0 else 0
    case _ => 0
  }

  lemma StakeMints(w: World, op: Op, id: nat, outcome: nat, a: Address)
    requires Books(w) && op.OpStake? && Execute(w.s, op).Ok?
    ensures var s' := Execute(w.s, op).value;
      ShareBalance(s', id, outcome, a) == ShareBalance(w.s, id, outcome, a) + SharesGained(w.s, op, s', id, outcome, a)
  {
    hide Stake, CreditCall, Counted, StakeLimit, Books;
    StakeShape(w.s, op.funder, op.staker, op.call, op.amount, op.position, op.delivered, op.qualifies);
    RecordIsEntry(w, op.staker, op.call, op.position);
  }

  lemma TransferMovesShares(s: Registry, op: Op, id: nat, outcome: nat, a: Address)
    requires op.OpTransferShares? && Execute(s, op).Ok?
    ensures var s' := Execute(s, op).value;
      ShareBalance(s', id, outcome, a) == ShareBalance(s, id, outcome, a) + SharesGained(s, op, s', id, outcome, a)
  {
    hide FitsI128;
  }

  lemma RedemptionBurnsShares(s: Registry, op: Op, id: nat, outcome: nat, a: Address)
    requires op.OpRedeem? && Execute(s, op).Ok?
    ensures var s' := Execute(s, op).value;
      ShareBalance(s', id, outcome, a) == ShareBalance(s, id, outcome, a) + SharesGained(s, op, s', id, outcome, a)
  {
    hide RedeemShares, Payout, Pot, Transfer;
    RedeemShape(s, op.redeemer, op.call);
  }

  lemma OthersKeepShares(s: Registry, op: Op)
    requires Execute(s, op).Ok? && !op.OpStake? && !op.OpTransferShares? && !op.OpRedeem?
    ensures Execute(s, op).value.shares == s.shares
  {
    hide EmptyOutcomes, EmptyStakes, Transfer, Penalty, LeaveCall, StakeLimit;
  }

  /** Every holder's shares of every outcome, after every transaction. */
  lemma SharesMoveExactly(w: World, op: Op, id: nat, outcome: nat, a: Address)
    requires Books(w) && Execute(w.s, op).Ok?
    ensures var s' := Execute(w.s, op).value;
      ShareBalance(s', id, outcome, a) == ShareBalance(w.s, id, outcome, a) + SharesGained(w.s, op, s', id, outcome, a)
  {
    hide Execute, ShareBalance, Books;
    if op.OpStake? {
      StakeMints(w, op, id, outcome, a);
    } else if op.OpTransferShares? {
      TransferMovesShares(w.s, op, id, outcome, a);
    } else if op.OpRedeem? {
      RedemptionBurnsShares(w.s, op, id, outcome, a);
    } else {
      OthersKeepShares(w.s, op);
      SameShares(w.s, Execute(w.s, op).value, id, outcome, a);
    }
  }

  lemma SameShares(s: Registry, s': Registry, id: nat, outcome: nat, a: Address)
    requires s'.shares == s.shares
    ensures ShareBalance(s', id, outcome, a) == ShareBalance(s, id, outcome, a)
  {
  }
}
