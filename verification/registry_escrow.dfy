/** The escrow account: the contract's balance of a token against what the pots of its
    calls still owe in that token. Every transaction moves the difference by an amount
    that can be told before it runs. */
module RegistryEscrow {
  import opened Basics
  import opened Sums
  import opened RegistryState
  import opened RegistryHistory
  import opened RegistryLedger
  import opened RegistryRefunds
  import opened RegistryRedemption

  /** Everything that holds in every reachable state. */
  ghost predicate Invariant(w: World) {
    Books(w) && Claims(w) && ShareBooks(w)
  }

  lemma DeployedInvariant(s: Registry)
    requires Fresh(s)
    ensures Invariant(Deployed(s))
  {
    assert Sum<Address>(map[]) == 0;
  }

  lemma StepKeepsInvariant(w: World, op: Op)
    requires Invariant(w)
    ensures Invariant(Next(w, op))
  {
    StepKeepsBooks(w, op);
    StepKeepsClaims(w, op);
    StepKeepsShareBooks(w, op);
  }

  lemma {:induction false} RunKeepsInvariant(w: World, ops: seq<Op>)
    requires Invariant(w)
    ensures Invariant(Run(w, ops))
    decreases |ops|
  {
    if ops != [] {
      StepKeepsInvariant(w, ops[0]);
      RunKeepsInvariant(Next(w, ops[0]), ops[1..]);
    }
  }

  // ---- Balance against debt ----

  function Held(s: Registry, token: Address): int {
    BalanceOf(s.balances, token, CONTRACT)
  }

  /** What a call's pot still owes: its stakes less everything paid against them. */
  ghost function Debt(w: World, id: nat): int
    requires id in w.s.calls
  {
    Pot(w.s.calls[id]) - PotPaid(w.h, id)
  }

  ghost function Debts(w: World): map<nat, int> {
    map id | id in w.s.calls :: Debt(w, id)
  }

  function Tokens(s: Registry): map<nat, Address> {
    map id | id in s.calls :: s.calls[id].stakeToken
  }

  /** The part of some debts that is due in one token. */
  function DueIn(debts: map<nat, int>, tokens: map<nat, Address>, token: Address): map<nat, int> {
    map id | id in debts && id in tokens && tokens[id] == token :: debts[id]
  }

  /** What the pots of all calls together owe in a token. */
  ghost function Owed(w: World, token: Address): int {
    Sum(DueIn(Debts(w), Tokens(w.s), token))
  }

  ghost function Surplus(w: World, token: Address): int {
    Held(w.s, token) - Owed(w, token)
  }

  /** Zero for a payment the contract makes to itself. */
  function Outflow(to: Address, amount: int): int {
    if to == CONTRACT then 0 else amount
  }

  /** How much a transaction that succeeds adds to the surplus of a token. Payments
      against a pot add nothing, because they lower balance and debt alike; payments
      that no pot backs take their amount out. */
  function Gain(s: Registry, op: Op, token: Address): int {
    match op
    case OpStake(funder, _, id, amount, _, delivered, _) =>
      if id !in s.calls || s.calls[id].stakeToken != token then 0
      else if token == NATIVE_XLM then (if funder == CONTRACT then -amount else 0)
      else Max(delivered - amount, 0)
    case OpWithdraw(staker, id, position) =>
      if id !in s.calls || s.calls[id].stakeToken != token then 0
      else
        var stake := UserStake(s, id, staker, position);
        stake - Penalty(stake) - Outflow(staker, stake - Penalty(stake))
    case OpVoidRefund(staker, id) =>
      if id !in s.calls || s.calls[id].stakeToken != token then 0
      else
        var refund := UserStakeUpTo(s, id, staker, 2);
        refund - Outflow(staker, refund)
    case OpExpiredRefund(staker, id) =>
      if id !in s.calls || s.calls[id].stakeToken != token then 0
      else
        var refund := UserStakeUpTo(s, id, staker, s.calls[id].outcomeCount);
        refund - Outflow(staker, refund)
    case OpRedeem(redeemer, id) =>
      if id !in s.calls || s.calls[id].stakeToken != token then 0
      else
        var payout := RedemptionPayout(s, redeemer, id);
        payout - Outflow(redeemer, payout)
    case OpCancel(creator, id) =>
      if id !in s.calls || s.calls[id].stakeToken != token then 0 else -Outflow(creator, s.calls[id].stakeAmount)
    case OpEmergencyCancel(_, id) =>
      if id !in s.calls || s.calls[id].stakeToken != token then 0
      else -Outflow(s.calls[id].creator, s.calls[id].stakeAmount)
    case OpRelease(_, id, to, amount) =>
      if id !in s.calls || s.calls[id].stakeToken != token then 0 else -Outflow(to, amount)
    case OpWithdrawFees(t, amount) => if t != token then 0 else -Outflow(s.config.admin, amount)
    case OpTokenActivity(t, holder, balance) =>
      if t == token && holder == CONTRACT then balance - Held(s, token) else 0
    case _ => 0
  }

  // ---- Balance ----

  lemma TransferMovesHeld(b: Balances, t: Address, from: Address, to: Address, amount: int, token: Address)
    requires Transfer(b, t, from, to, amount).Ok?
    ensures var b' := Transfer(b, t, from, to, amount).value;
      BalanceOf(b', token, CONTRACT) == BalanceOf(b, token, CONTRACT)
        + (if t == token && to == CONTRACT then amount else 0) - (if t == token && from == CONTRACT then amount else 0)
  {
  }

  lemma DepositMovesHeld(b: Balances, t: Address, funder: Address, amount: int, delivered: int, token: Address)
    requires Deposit(b, t, funder, amount, delivered).Ok?
    ensures var b' := Deposit(b, t, funder, amount, delivered).value;
      BalanceOf(b', token, CONTRACT) == BalanceOf(b, token, CONTRACT)
        + (if t != token then 0
           else if token == NATIVE_XLM then Outflow(funder, amount)
           else delivered)
  {
    if t == NATIVE_XLM {
      TransferMovesHeld(b, t, funder, CONTRACT, amount, token);
    }
  }

  // ---- Debt ----

  lemma {:induction false} PotWritten(m: map<nat, int>, p: nat, v: int, n: nat)
    ensures PotUpTo(m[p := v], n) == PotUpTo(m, n) + if 1 <= p <= n then v - Get(m, p) else 0
  {
    if n != 0 {
      PotWritten(m, p, v, n - 1);
    }
  }

  lemma DueInWritten(debts: map<nat, int>, tokens: map<nat, Address>, id: nat, debt: int, token: Address)
    requires id in tokens
    ensures Sum(DueIn(debts[id := debt], tokens, token)) == Sum(DueIn(debts, tokens, token))
              + if tokens[id] == token then debt - Get(debts, id) else 0
  {
    var d, d' := DueIn(debts, tokens, token), DueIn(debts[id := debt], tokens, token);
    if tokens[id] == token {
      assert d' == d[id := debt];
      SumUpdate(d, id, debt);
    } else {
      assert d' == d;
    }
  }

  /** The calls and their tokens are the same and nothing but the debt of one call has
      moved, by `delta`. */
  ghost predicate DebtMoved(w: World, w': World, id: nat, delta: int) {
    && id in w.s.calls && id in w'.s.calls
    && Tokens(w'.s) == Tokens(w.s)
    && Debts(w') == Debts(w)[id := Debt(w, id) + delta]
  }

  lemma OwedMoves(w: World, w': World, id: nat, delta: int, token: Address)
    requires DebtMoved(w, w', id, delta)
    ensures Owed(w', token) == Owed(w, token) + if w.s.calls[id].stakeToken == token then delta else 0
  {
    hide Sum, DueIn, Debt;
    DueInWritten(Debts(w), Tokens(w.s), id, Debt(w, id) + delta, token);
  }

  /** A call's stakes moved by `delta` and nothing was paid. */
  lemma PotMovesDebt(w: World, w': World, id: nat, delta: int)
    requires id in w.s.calls && id in w'.s.calls && w'.s.calls == w.s.calls[id := w'.s.calls[id]]
    requires w'.s.calls[id].stakeToken == w.s.calls[id].stakeToken
    requires Pot(w'.s.calls[id]) == Pot(w.s.calls[id]) + delta
    requires forall j :: PotPaid(w'.h, j) == PotPaid(w.h, j)
    ensures DebtMoved(w, w', id, delta)
  {
    hide PotPaid, Pot;
  }

  /** `paid` was paid against one call and no stake moved. */
  lemma PaymentMovesDebt(w: World, w': World, id: nat, paid: int)
    requires id in w.s.calls && w'.s.calls == w.s.calls
    requires forall j :: PotPaid(w'.h, j) == PotPaid(w.h, j) + if j == id then paid else 0
    ensures DebtMoved(w, w', id, -paid)
  {
    hide PotPaid, Pot;
  }

  /** What an early exit takes out is stake, not a payment against the pot. */
  lemma ExitPaysNothing(s: Registry, h: History, staker: Address, id: nat, position: nat)
    ensures forall j :: PotPaid(ExitRecorded(s, h, staker, id, position), j) == PotPaid(h, j)
  {
  }

  lemma VoidRefundPaid(s: Registry, h: History, staker: Address, id: nat)
    requires staker !in GetMap(h.voidRefunds, id)
    ensures forall j :: PotPaid(VoidRefundRecorded(s, h, staker, id), j)
                     == PotPaid(h, j) + if j == id then UserStakeUpTo(s, id, staker, 2) else 0
  {
    SumUpdate(GetMap(h.voidRefunds, id), staker, UserStakeUpTo(s, id, staker, 2));
  }

  lemma ExpiredRefundPaid(s: Registry, h: History, staker: Address, id: nat)
    requires id in s.calls && staker !in GetMap(h.expiredRefunds, id)
    ensures forall j :: PotPaid(ExpiredRefundRecorded(s, h, staker, id), j)
                     == PotPaid(h, j) + if j == id then UserStakeUpTo(s, id, staker, s.calls[id].outcomeCount) else 0
  {
    SumUpdate(GetMap(h.expiredRefunds, id), staker, UserStakeUpTo(s, id, staker, s.calls[id].outcomeCount));
  }

  lemma RedemptionPaid(s: Registry, h: History, redeemer: Address, id: nat)
    requires id in s.calls
    ensures forall j :: PotPaid(RedemptionRecorded(s, h, redeemer, id), j)
                     == PotPaid(h, j) + if j == id then RedemptionPayout(s, redeemer, id) else 0
  {
    var p, paid := s.calls[id].outcome, GetMap(h.redeemed, id);
    SumUpdate(paid, p, Get(paid, p) + RedemptionPayout(s, redeemer, id));
  }

  lemma SumOfZeros<K>(m: map<K, int>)
    requires forall k :: k in m ==> m[k] == 0
    ensures Sum(m) == 0
  {
    SumMonotone(m, map[]);
    SumMonotone(map[], m);
    assert Sum<K>(map[]) == 0;
  }

  /** Nothing has been paid for a call that does not exist. */
  lemma NothingPaidYet(w: World, id: nat)
    requires Invariant(w) && id !in w.s.calls
    ensures PotPaid(w.h, id) == 0
  {
    var voids, expired, paid := GetMap(w.h.voidRefunds, id), GetMap(w.h.expiredRefunds, id), GetMap(w.h.redeemed, id);
    assert forall a :: a in voids ==> VoidRefundOwed(w.s, id, a, voids[a]);
    assert forall a :: a in expired ==> ExpiredRefundOwed(w.s, id, a, expired[a]);
    forall p | p in paid ensures paid[p] == 0 {
      assert NoShareBook(w, id, p);
    }
    SumOfZeros(voids);
    SumOfZeros(expired);
    SumOfZeros(paid);
  }

  // ---- One lemma an entry point ----

  lemma DueInExtended(debts: map<nat, int>, tokens: map<nat, Address>, id: nat, t: Address, token: Address)
    requires id !in debts
    ensures Sum(DueIn(debts[id := 0], tokens[id := t], token)) == Sum(DueIn(debts, tokens, token))
  {
    assert DueIn(debts, tokens[id := t], token) == DueIn(debts, tokens, token);
    DueInWritten(debts, tokens[id := t], id, 0, token);
  }

  /** A new call owes nothing. */
  lemma NewCallOwesNothing(w: World, w': World, id: nat, token: Address)
    requires id !in w.s.calls && id in w'.s.calls && w'.s.calls == w.s.calls[id := w'.s.calls[id]] && w'.h == w.h
    requires Debt(w', id) == 0
    ensures Owed(w', token) == Owed(w, token)
  {
    hide Sum, PotPaid, Pot, DueIn;
    assert Tokens(w'.s) == Tokens(w.s)[id := w'.s.calls[id].stakeToken];
    assert Debts(w') == Debts(w)[id := 0];
    DueInExtended(Debts(w), Tokens(w.s), id, w'.s.calls[id].stakeToken, token);
  }

  lemma CreateGain(w: World, creator: Address, t: Address, stakeAmount: int, startPrice: int, endTs: nat, n: nat,
                   token: Address)
    requires CreateCall(w.s, creator, t, stakeAmount, startPrice, endTs, n).Ok?
    requires w.s.callCounter + 1 !in w.s.calls && PotPaid(w.h, w.s.callCounter + 1) == 0
    ensures Surplus(World(CreateCall(w.s, creator, t, stakeAmount, startPrice, endTs, n).value, w.h), token)
         == Surplus(w, token)
  {
    hide Owed, PotPaid, CreateCall;
    CreateShape(w.s, creator, t, stakeAmount, startPrice, endTs, n);
    EmptyPot(n, n);
    NewCallOwesNothing(w, World(CreateCall(w.s, creator, t, stakeAmount, startPrice, endTs, n).value, w.h),
                       w.s.callCounter + 1, token);
  }

  lemma StakeGain(w: World, funder: Address, staker: Address, id: nat, amount: int, position: nat, delivered: int,
                  qualifies: bool, token: Address)
    requires Stake(w.s, funder, staker, id, amount, position, delivered, qualifies).Ok?
    ensures Surplus(World(Stake(w.s, funder, staker, id, amount, position, delivered, qualifies).value, w.h), token)
         == Surplus(w, token) + Gain(w.s, OpStake(funder, staker, id, amount, position, delivered, qualifies), token)
  {
    hide Owed, Debt, Debts, PotPaid, Stake, StakeLimit, Deposit;
    StakeShape(w.s, funder, staker, id, amount, position, delivered, qualifies);
    var w' := World(Stake(w.s, funder, staker, id, amount, position, delivered, qualifies).value, w.h);
    var c := w.s.calls[id];
    DepositMovesHeld(w.s.balances, c.stakeToken, funder, amount, delivered, token);
    var credited := Credited(c.stakeToken, amount, delivered);
    PotWritten(c.outcomeStakes, position, Get(c.outcomeStakes, position) + credited, c.outcomeCount);
    PotMovesDebt(w, w', id, credited);
    OwedMoves(w, w', id, credited, token);
  }

  lemma ExitGain(w: World, staker: Address, id: nat, position: nat, token: Address)
    requires WithdrawStake(w.s, staker, id, position).Ok?
    ensures Surplus(World(WithdrawStake(w.s, staker, id, position).value,
                          ExitRecorded(w.s, w.h, staker, id, position)), token)
         == Surplus(w, token) + Gain(w.s, OpWithdraw(staker, id, position), token)
  {
    hide Owed, Debt, Debts, PotPaid, WithdrawStake, Transfer;
    WithdrawShape(w.s, staker, id, position);
    var w' := World(WithdrawStake(w.s, staker, id, position).value, ExitRecorded(w.s, w.h, staker, id, position));
    var c, stake := w.s.calls[id], UserStake(w.s, id, staker, position);
    var refund := stake - Penalty(stake);
    TransferMovesHeld(w.s.balances, c.stakeToken, CONTRACT, staker, refund, token);
    PotWritten(c.outcomeStakes, position, Get(c.outcomeStakes, position) - refund, c.outcomeCount);
    ExitPaysNothing(w.s, w.h, staker, id, position);
    PotMovesDebt(w, w', id, -refund);
    OwedMoves(w, w', id, -refund, token);
  }

  lemma VoidRefundGain(w: World, staker: Address, id: nat, token: Address)
    requires FlagsMatch(w.s.voidClaimed, w.h.voidRefunds) && ClaimVoidRefund(w.s, staker, id).Ok?
    ensures Surplus(World(ClaimVoidRefund(w.s, staker, id).value, VoidRefundRecorded(w.s, w.h, staker, id)), token)
         == Surplus(w, token) + Gain(w.s, OpVoidRefund(staker, id), token)
  {
    hide Owed, Debt, Debts, PotPaid, ClaimVoidRefund, Transfer;
    VoidRefundShape(w.s, staker, id);
    var w' := World(ClaimVoidRefund(w.s, staker, id).value, VoidRefundRecorded(w.s, w.h, staker, id));
    var refund := UserStakeUpTo(w.s, id, staker, 2);
    TransferMovesHeld(w.s.balances, w.s.calls[id].stakeToken, CONTRACT, staker, refund, token);
    VoidRefundPaid(w.s, w.h, staker, id);
    PaymentMovesDebt(w, w', id, refund);
    OwedMoves(w, w', id, -refund, token);
  }

  lemma ExpiredRefundGain(w: World, staker: Address, id: nat, token: Address)
    requires FlagsMatch(w.s.expiredClaimed, w.h.expiredRefunds) && ClaimExpiredRefund(w.s, staker, id).Ok?
    ensures id in w.s.calls
    ensures Surplus(World(ClaimExpiredRefund(w.s, staker, id).value,
                          ExpiredRefundRecorded(w.s, w.h, staker, id)), token)
         == Surplus(w, token) + Gain(w.s, OpExpiredRefund(staker, id), token)
  {
    hide Owed, Debt, Debts, PotPaid, ClaimExpiredRefund, Transfer;
    ExpiredRefundShape(w.s, staker, id);
    var w' := World(ClaimExpiredRefund(w.s, staker, id).value, ExpiredRefundRecorded(w.s, w.h, staker, id));
    var refund := UserStakeUpTo(w.s, id, staker, w.s.calls[id].outcomeCount);
    TransferMovesHeld(w.s.balances, w.s.calls[id].stakeToken, CONTRACT, staker, refund, token);
    ExpiredRefundPaid(w.s, w.h, staker, id);
    PaymentMovesDebt(w, w', id, refund);
    OwedMoves(w, w', id, -refund, token);
  }

  lemma RedemptionGain(w: World, redeemer: Address, id: nat, token: Address)
    requires RedeemShares(w.s, redeemer, id).Ok?
    ensures id in w.s.calls
    ensures Surplus(World(RedeemShares(w.s, redeemer, id).value, RedemptionRecorded(w.s, w.h, redeemer, id)), token)
         == Surplus(w, token) + Gain(w.s, OpRedeem(redeemer, id), token)
  {
    hide Owed, Debt, Debts, PotPaid, RedeemShares, Transfer;
    RedeemShape(w.s, redeemer, id);
    var w' := World(RedeemShares(w.s, redeemer, id).value, RedemptionRecorded(w.s, w.h, redeemer, id));
    var payout := RedemptionPayout(w.s, redeemer, id);
    TransferMovesHeld(w.s.balances, w.s.calls[id].stakeToken, CONTRACT, redeemer, payout, token);
    RedemptionPaid(w.s, w.h, redeemer, id);
    PaymentMovesDebt(w, w', id, payout);
    OwedMoves(w, w', id, -payout, token);
  }

  /** A transaction that moves no pot: what it pays comes out of the surplus. */
  lemma SameDebts(w: World, w': World, token: Address)
    requires BooksUntouched(w.s, w'.s)
    requires forall j :: PotPaid(w'.h, j) == PotPaid(w.h, j)
    ensures Owed(w', token) == Owed(w, token)
  {
    hide Sum, PotPaid;
    assert forall id :: id in w.s.calls ==> SameLedgers(w.s.calls[id], w'.s.calls[id]);
    assert Tokens(w'.s) == Tokens(w.s);
    assert Debts(w') == Debts(w);
  }

  lemma FlagOpHeld(s: Registry, op: Op, token: Address)
    requires FlagOp(op) && Execute(s, op).Ok?
    ensures Held(Execute(s, op).value, token) == Held(s, token) + Gain(s, op, token)
  {
    match op
    case OpResolve(caller, id, outcome, endPrice) => ResolveShape(s, caller, id, outcome, endPrice);
    case OpCancel(creator, id) =>
      CancelShape(s, creator, id);
      TransferMovesHeld(s.balances, s.calls[id].stakeToken, CONTRACT, creator, s.calls[id].stakeAmount, token);
    case OpEmergencyCancel(caller, id) =>
      EmergencyCancelShape(s, caller, id);
      TransferMovesHeld(s.balances, s.calls[id].stakeToken, CONTRACT, s.calls[id].creator, s.calls[id].stakeAmount,
                        token);
    case _ =>
  }

  /** A payment that is neither a refund nor a redemption. */
  predicate UnbackedOp(op: Op) {
    PaymentOp(op) && !op.OpVoidRefund? && !op.OpExpiredRefund? && !op.OpRedeem?
  }

  lemma UnbackedOpHeld(s: Registry, op: Op, token: Address)
    requires UnbackedOp(op) && Execute(s, op).Ok?
    ensures Held(Execute(s, op).value, token) == Held(s, token) + Gain(s, op, token)
  {
    match op
    case OpRelease(caller, id, to, amount) =>
      TransferMovesHeld(s.balances, s.calls[id].stakeToken, CONTRACT, to, amount, token);
    case OpWithdrawFees(t, amount) =>
      TransferMovesHeld(s.balances, t, CONTRACT, s.config.admin, amount, token);
    case _ =>
  }

  lemma LedgerOpGain(w: World, op: Op, token: Address)
    requires Invariant(w) && !FlagOp(op) && !PaymentOp(op) && Execute(w.s, op).Ok?
    ensures Surplus(Next(w, op), token) == Surplus(w, token) + Gain(w.s, op, token)
  {
    hide Surplus;
    match op
    case OpCreate(creator, t, stakeAmount, startPrice, endTs, n) =>
      NothingPaidYet(w, w.s.callCounter + 1);
      CreateGain(w, creator, t, stakeAmount, startPrice, endTs, n, token);
    case OpStake(funder, staker, id, amount, position, delivered, qualifies) =>
      StakeGain(w, funder, staker, id, amount, position, delivered, qualifies, token);
    case OpWithdraw(staker, id, position) =>
      ExitGain(w, staker, id, position, token);
  }

  lemma QuietOpGain(w: World, op: Op, token: Address)
    requires (FlagOp(op) || UnbackedOp(op)) && Execute(w.s, op).Ok?
    ensures Surplus(Next(w, op), token) == Surplus(w, token) + Gain(w.s, op, token)
  {
    hide Owed, Gain, Held, CreateCall, Stake, WithdrawStake, ResolveCall, ClaimVoidRefund, ClaimExpiredRefund,
         CancelCall, EmergencyCancelCall, RedeemShares, TransferShares, ReleaseEscrow, WithdrawFees;
    OtherOpShape(w, op);
    if FlagOp(op) {
      FlagOpHeld(w.s, op, token);
    } else {
      UnbackedOpHeld(w.s, op, token);
    }
    SameDebts(w, Next(w, op), token);
  }

  lemma RefundGain(w: World, op: Op, token: Address)
    requires Claims(w) && (op.OpVoidRefund? || op.OpExpiredRefund?) && Execute(w.s, op).Ok?
    ensures Surplus(Next(w, op), token) == Surplus(w, token) + Gain(w.s, op, token)
  {
    hide Surplus, Gain, ClaimVoidRefund, ClaimExpiredRefund, UserStakeUpTo;
    if op.OpVoidRefund? {
      VoidRefundGain(w, op.staker, op.call, token);
    } else {
      ExpiredRefundGain(w, op.staker, op.call, token);
    }
  }

  /** The balance of the contract and the debt of its pots move together: a successful
      transaction changes the surplus by exactly its gain, a refused one not at all. */
  lemma StepGain(w: World, op: Op, token: Address)
    requires Invariant(w)
    ensures Surplus(Next(w, op), token)
         == Surplus(w, token) + if Execute(w.s, op).Ok? then Gain(w.s, op, token) else 0
  {
    hide Surplus, Gain, CreateCall, Stake, WithdrawStake, ResolveCall, ClaimVoidRefund, ClaimExpiredRefund,
         CancelCall, EmergencyCancelCall, RedeemShares, TransferShares, ReleaseEscrow, WithdrawFees;
    if Execute(w.s, op).Ok? {
      if FlagOp(op) || UnbackedOp(op) {
        QuietOpGain(w, op, token);
      } else if op.OpVoidRefund? || op.OpExpiredRefund? {
        RefundGain(w, op, token);
      } else if op.OpRedeem? {
        RedemptionGain(w, op.redeemer, op.call, token);
      } else {
        LedgerOpGain(w, op, token);
      }
    }
  }

  /** The gains of a whole run, refused transactions counting nothing. */
  function TotalGain(w: World, ops: seq<Op>, token: Address): int
    decreases |ops|
  {
    if ops == [] then 0
    else (if Execute(w.s, ops[0]).Ok? then Gain(w.s, ops[0], token) else 0)
         + TotalGain(Next(w, ops[0]), ops[1..], token)
  }

  /** Conservation over every run of the whole contract. */
  lemma {:induction false} RunGain(w: World, ops: seq<Op>, token: Address)
    requires Invariant(w)
    ensures Surplus(Run(w, ops), token) == Surplus(w, token) + TotalGain(w, ops, token)
    decreases |ops|
  {
    if ops != [] {
      StepGain(w, ops[0], token);
      StepKeepsInvariant(w, ops[0]);
      RunGain(Next(w, ops[0]), ops[1..], token);
    }
  }

  /** Transactions whose payments are all backed by a pot, and stakes the contract does
      not fund from its own balance. */
  predicate Backed(op: Op) {
    && !op.OpCancel? && !op.OpEmergencyCancel? && !op.OpRelease? && !op.OpWithdrawFees?
    && (op.OpStake? ==> op.funder != CONTRACT)
  }

  lemma BackedGain(s: Registry, op: Op, token: Address)
    requires Backed(op) && Execute(s, op).Ok?
    ensures Gain(s, op, token) >= 0
  {
    match op
    case OpWithdraw(staker, id, position) => WithdrawShape(s, staker, id, position);
    case OpVoidRefund(staker, id) => VoidRefundShape(s, staker, id);
    case OpExpiredRefund(staker, id) => ExpiredRefundShape(s, staker, id);
    case OpRedeem(redeemer, id) => RedeemShape(s, redeemer, id);
    case _ =>
  }

  lemma {:induction false} BackedRunGain(w: World, ops: seq<Op>, token: Address)
    requires forall i :: 0 <= i < |ops| ==> Backed(ops[i])
    ensures TotalGain(w, ops, token) >= 0
    decreases |ops|
  {
    if ops != [] {
      assert Backed(ops[0]);
      if Execute(w.s, ops[0]).Ok? {
        BackedGain(w.s, ops[0], token);
      }
      BackedRunGain(Next(w, ops[0]), ops[1..], token);
    }
  }

  /** Solvency: as long as nothing unbacked is paid out, the contract holds at least what
      the pots of its calls owe, in every token and after every run. */
  lemma EscrowIsSolvent(s: Registry, ops: seq<Op>, token: Address)
    requires Fresh(s) && Held(s, token) >= 0
    requires forall i :: 0 <= i < |ops| ==> Backed(ops[i])
    ensures var w := Run(Deployed(s), ops); Held(w.s, token) >= Owed(w, token)
  {
    DeployedInvariant(s);
    RunGain(Deployed(s), ops, token);
    BackedRunGain(Deployed(s), ops, token);
    SumOfZeros(DueIn(Debts(Deployed(s)), Tokens(s), token));
  }

  /** The transactions that take out of the escrow what no pot owes: cancelling pays
      the creator a stake that creating the call never took in, the outcome manager
      and the admins may pay out at will, and a native stake the contract funds itself
      is credited without anything arriving. */
  predicate Drains(s: Registry, op: Op) {
    match op
    case OpCancel(creator, _) => creator != CONTRACT
    case OpEmergencyCancel(_, id) => id in s.calls && s.calls[id].creator != CONTRACT
    case OpRelease(_, _, to, amount) => to != CONTRACT && amount > 0
    case OpWithdrawFees(_, _) => s.config.admin != CONTRACT
    case OpStake(funder, _, id, _, _, _, _) =>
      funder == CONTRACT && id in s.calls && s.calls[id].stakeToken == NATIVE_XLM
    case _ => false
  }

  /** The token a transaction pays in. */
  function TokenOf(s: Registry, op: Op): Address
    requires op.OpCancel? || op.OpEmergencyCancel? || op.OpRelease? || op.OpStake? ==> op.call in s.calls
  {
    match op
    case OpWithdrawFees(token, _) => token
    case OpTokenActivity(token, _, _) => token
    case OpCancel(_, id) => s.calls[id].stakeToken
    case OpEmergencyCancel(_, id) => s.calls[id].stakeToken
    case OpRelease(_, id, _, _) => s.calls[id].stakeToken
    case OpStake(_, _, id, _, _, _, _) => s.calls[id].stakeToken
    case _ => NATIVE_XLM
  }

  /** A transaction lowers the surplus of some token exactly when it drains the escrow,
      and then it is the token it pays in. */
  lemma OnlyDrainsLower(w: World, op: Op)
    requires Invariant(w) && Execute(w.s, op).Ok?
    ensures (forall token :: Surplus(Next(w, op), token) >= Surplus(w, token)) <==> !Drains(w.s, op)
  {
    hide Surplus;
    forall token ensures Surplus(Next(w, op), token) == Surplus(w, token) + Gain(w.s, op, token) {
      StepGain(w, op, token);
    }
    DrainGain(w, op);
  }

  lemma DrainGain(w: World, op: Op)
    requires Books(w) && Execute(w.s, op).Ok?
    ensures (forall token :: Gain(w.s, op, token) >= 0) <==> !Drains(w.s, op)
  {
    if Backed(op) {
      forall token ensures Gain(w.s, op, token) >= 0 {
        BackedGain(w.s, op, token);
      }
    } else {
      UnbackedGain(w, op);
    }
  }

  lemma UnbackedGain(w: World, op: Op)
    requires Books(w) && Execute(w.s, op).Ok? && !Backed(op)
    ensures op.OpCancel? || op.OpEmergencyCancel? || op.OpRelease? || op.OpStake? ==> op.call in w.s.calls
    ensures Drains(w.s, op) ==> Gain(w.s, op, TokenOf(w.s, op)) < 0
    ensures !Drains(w.s, op) ==> forall token :: Gain(w.s, op, token) >= 0
  {
    hide FitsI128, StakeRefusal, CreditStake, CreditFits;
    match op
    case OpCancel(creator, id) =>
      CancelShape(w.s, creator, id);
      assert CallBalanced(w.h.forfeited, id, w.s.calls[id]);
    case OpEmergencyCancel(caller, id) =>
      EmergencyCancelShape(w.s, caller, id);
      assert CallBalanced(w.h.forfeited, id, w.s.calls[id]);
    case OpStake(funder, staker, id, amount, position, delivered, qualifies) =>
      StakeShape(w.s, funder, staker, id, amount, position, delivered, qualifies);
    case OpRelease(_, _, _, _) =>
    case OpWithdrawFees(_, _) =>
  }
}
