/** The runs that never overpay a call: exactly those in which each void refund and each
    redemption fits what is left of the pot when it is executed. */
module RegistryOverpayment {
  import opened Basics
  import opened Sums
  import opened RegistryState
  import opened RegistryHistory
  import opened RegistryLedger
  import opened RegistryRefunds
  import opened RegistryRedemption
  import opened RegistryEscrow
  import opened RegistryPayability
  import opened RegistryGuards

  /** What refunds and redemptions so far have left of the pot. */
  ghost function LeftInPot(w: World, id: nat): int
    requires id in w.s.calls
  {
    Pot(w.s.calls[id]) - RefundedOnRecord(w.s, id) - RedeemedInAll(w.h, id)
  }

  /** The exact guard of one transaction, if it would succeed: a void refund fits what is
      left of the pot, a redemption up to the unit that rounding forgives. */
  ghost predicate Affordable(w: World, op: Op) {
    Execute(w.s, op).Ok? ==>
      match op
      case OpVoidRefund(staker, id) => id in w.s.calls ==> UserStakeUpTo(w.s, id, staker, 2) <= LeftInPot(w, id)
      case OpRedeem(redeemer, id) =>
        id in w.s.calls ==>
          var c := w.s.calls[id];
          ShareBalance(w.s, id, c.outcome, redeemer) * Pot(c)
          < (LeftInPot(w, id) + 1) * Get(c.outcomeStakes, c.outcome)
      case _ => true
  }

  /** In no state of the run, from the first to the last, is a call overpaid. */
  ghost predicate NeverOverpaid(w: World, ops: seq<Op>)
    decreases |ops|
  {
    NoneOverpaid(w) && (ops != [] ==> NeverOverpaid(Next(w, ops[0]), ops[1..]))
  }

  ghost predicate AffordableRun(w: World, ops: seq<Op>)
    decreases |ops|
  {
    ops != [] ==> Affordable(w, ops[0]) && AffordableRun(Next(w, ops[0]), ops[1..])
  }

  // ---- Transactions other than payments overpay nobody ----

  /** Nothing is paid on a call while stakes can still be added or withdrawn. */
  lemma OpenCallUnpaid(w: World, id: nat)
    requires Invariant(w) && id in w.s.calls && !Closed(w.s, id)
    ensures PotPaid(w.h, id) == 0
  {
    hide Books, UserStakeUpTo, Rounded, Pot, ShareBooks;
    OnlyExpiredOnOpenRecords(w, id);
    var expired := GetMap(w.h.expiredRefunds, id);
    assert forall a :: a in expired ==> ExpiredRefundOwed(w.s, id, a, expired[a]);
    assert expired.Keys == {};
    assert Sum<Address>(map[]) == 0;
  }

  lemma PotNotNegative(w: World, id: nat)
    requires Books(w) && id in w.s.calls
    ensures Pot(w.s.calls[id]) >= 0
  {
    assert CallBalanced(w.h.forfeited, id, w.s.calls[id]);
    BalancedTotals(w.h.forfeited, id, w.s.calls[id]);
    PotAtLeast(w.s.calls[id], 1);
  }

  /** A transaction changes the calls and what was paid on them at most for one call, on
      which nothing was paid. */
  ghost predicate TouchesUnpaid(w: World, w': World, id: nat) {
    && (forall j :: j in w'.s.calls && j != id ==> j in w.s.calls && w'.s.calls[j] == w.s.calls[j])
    && (forall j :: PotPaid(w'.h, j) == PotPaid(w.h, j))
    && PotPaid(w.h, id) == 0
  }

  lemma UnpaidIsNotOverpaid(w: World, w': World, id: nat)
    requires NoneOverpaid(w) && Books(w') && TouchesUnpaid(w, w', id)
    ensures NoneOverpaid(w')
  {
    hide Books, Pot, PotPaid;
    forall j | j in w'.s.calls ensures Debt(w', j) >= 0 {
      if j == id {
        PotNotNegative(w', id);
      } else {
        assert Debt(w, j) >= 0;
      }
    }
  }

  lemma CreateTouchesUnpaid(w: World, op: Op)
    requires Invariant(w) && op.OpCreate? && Execute(w.s, op).Ok?
    ensures TouchesUnpaid(w, Next(w, op), w.s.callCounter + 1)
  {
    hide CreateCall, PotPaid, Claims, ShareBooks, EmptyOutcomes, EmptyStakes;
    CreateShape(w.s, op.creator, op.token, op.stakeAmount, op.startPrice, op.endTs, op.outcomeCount);
    NothingPaidYet(w, w.s.callCounter + 1);
  }

  lemma StakeTouchesUnpaid(w: World, op: Op)
    requires Invariant(w) && op.OpStake? && Execute(w.s, op).Ok?
    ensures TouchesUnpaid(w, Next(w, op), op.call)
  {
    hide Stake, PotPaid, Books, Claims, ShareBooks, CreditCall, Minted, Counted;
    StakeShape(w.s, op.funder, op.staker, op.call, op.amount, op.position, op.delivered, op.qualifies);
    OpenCallUnpaid(w, op.call);
  }

  lemma ExitTouchesUnpaid(w: World, op: Op)
    requires Invariant(w) && op.OpWithdraw? && Execute(w.s, op).Ok?
    ensures TouchesUnpaid(w, Next(w, op), op.call)
  {
    hide WithdrawStake, PotPaid, Books, Claims, ShareBooks, LeaveCall, Penalty;
    WithdrawShape(w.s, op.staker, op.call, op.position);
    OpenCallUnpaid(w, op.call);
    ExitPaysNothing(w.s, w.h, op.staker, op.call, op.position);
  }

  lemma UntouchedIsNotOverpaid(w: World, w': World)
    requires NoneOverpaid(w) && BooksUntouched(w.s, w'.s) && forall j :: PotPaid(w'.h, j) == PotPaid(w.h, j)
    ensures NoneOverpaid(w')
  {
    hide PotPaid, PotUpTo;
    forall id | id in w'.s.calls ensures Debt(w', id) >= 0 {
      assert Debt(w, id) >= 0 && SameLedgers(w.s.calls[id], w'.s.calls[id]);
    }
  }

  lemma QuietOpKeepsDebts(w: World, op: Op)
    requires NoneOverpaid(w) && (FlagOp(op) || UnbackedOp(op)) && Execute(w.s, op).Ok?
    ensures NoneOverpaid(Next(w, op))
  {
    hide Execute, NoneOverpaid, PotPaid, BooksUntouched;
    OtherOpShape(w, op);
    UntouchedIsNotOverpaid(w, Next(w, op));
  }

  // ---- Payments ----

  /** A payment leaves the other calls as they were. */
  lemma PaymentOverpaysIff(w: World, w': World, id: nat, paid: int)
    requires NoneOverpaid(w) && id in w.s.calls && w'.s.calls == w.s.calls
    requires forall j :: PotPaid(w'.h, j) == PotPaid(w.h, j) + if j == id then paid else 0
    ensures NoneOverpaid(w') <==> Debt(w', id) >= 0
  {
    hide Pot, PotPaid;
    forall j | j in w'.s.calls && j != id ensures Debt(w', j) >= 0 {
      assert Debt(w, j) >= 0;
    }
  }

  lemma VoidRefundOverpaysIff(w: World, staker: Address, id: nat)
    requires Invariant(w) && NoneOverpaid(w) && ClaimVoidRefund(w.s, staker, id).Ok?
    ensures NoneOverpaid(Next(w, OpVoidRefund(staker, id))) <==> Affordable(w, OpVoidRefund(staker, id))
  {
    hide Books, ShareBooks, NoneOverpaid, Pot, PotPaid, RefundedOnRecord, RedeemedInAll, UserStakeUpTo, ClaimVoidRefund;
    VoidRefundShape(w.s, staker, id);
    VoidRefundPaid(w.s, w.h, staker, id);
    PaymentOverpaysIff(w, Next(w, OpVoidRefund(staker, id)), id, UserStakeUpTo(w.s, id, staker, 2));
    LateVoidRefundKeepsDebtIff(w, staker, id);
  }

  lemma RedemptionOverpaysIff(w: World, redeemer: Address, id: nat)
    requires Invariant(w) && NoneOverpaid(w) && RedeemShares(w.s, redeemer, id).Ok?
    ensures NoneOverpaid(Next(w, OpRedeem(redeemer, id))) <==> Affordable(w, OpRedeem(redeemer, id))
  {
    hide Books, Claims, ShareBooks, NoneOverpaid, Pot, PotPaid, RefundedOnRecord, RedeemedInAll, RedeemShares;
    RedeemShape(w.s, redeemer, id);
    RedemptionPaid(w.s, w.h, redeemer, id);
    PaymentOverpaysIff(w, Next(w, OpRedeem(redeemer, id)), id, RedemptionPayout(w.s, redeemer, id));
    RedemptionKeepsDebtIff(w, redeemer, id);
  }

  lemma ExpiredRefundOverpaysNobody(w: World, staker: Address, id: nat)
    requires Invariant(w) && NoneOverpaid(w) && ClaimExpiredRefund(w.s, staker, id).Ok?
    ensures NoneOverpaid(Next(w, OpExpiredRefund(staker, id)))
  {
    hide Books, ShareBooks, NoneOverpaid, Pot, PotPaid, UserStakeUpTo, ClaimExpiredRefund;
    ExpiredRefundShape(w.s, staker, id);
    ExpiredRefundPaid(w.s, w.h, staker, id);
    PaymentOverpaysIff(w, Next(w, OpExpiredRefund(staker, id)), id,
                       UserStakeUpTo(w.s, id, staker, w.s.calls[id].outcomeCount));
    ExpiredRefundKeepsDebt(w, staker, id);
  }

  // ---- Runs ----

  lemma LedgerOpOverpaysNobody(w: World, op: Op)
    requires Invariant(w) && NoneOverpaid(w) && Execute(w.s, op).Ok?
    requires op.OpCreate? || op.OpStake? || op.OpWithdraw?
    ensures NoneOverpaid(Next(w, op))
  {
    hide Books, Claims, ShareBooks, NoneOverpaid, Execute, Next, TouchesUnpaid;
    StepKeepsInvariant(w, op);
    if op.OpCreate? {
      CreateTouchesUnpaid(w, op);
      UnpaidIsNotOverpaid(w, Next(w, op), w.s.callCounter + 1);
    } else if op.OpStake? {
      StakeTouchesUnpaid(w, op);
      UnpaidIsNotOverpaid(w, Next(w, op), op.call);
    } else {
      ExitTouchesUnpaid(w, op);
      UnpaidIsNotOverpaid(w, Next(w, op), op.call);
    }
  }

  lemma StepOverpaysIff(w: World, op: Op)
    requires Invariant(w) && NoneOverpaid(w)
    ensures NoneOverpaid(Next(w, op)) <==> Affordable(w, op)
  {
    hide Invariant, NoneOverpaid, LeftInPot, CreateCall, Stake, WithdrawStake, ClaimVoidRefund, ClaimExpiredRefund,
         RedeemShares, UserStakeUpTo, Recorded;
    if Execute(w.s, op).Ok? {
      if op.OpVoidRefund? {
        VoidRefundOverpaysIff(w, op.staker, op.call);
      } else if op.OpRedeem? {
        RedemptionOverpaysIff(w, op.redeemer, op.call);
      } else if op.OpExpiredRefund? {
        ExpiredRefundOverpaysNobody(w, op.staker, op.call);
      } else if op.OpCreate? || op.OpStake? || op.OpWithdraw? {
        LedgerOpOverpaysNobody(w, op);
      } else {
        QuietOpKeepsDebts(w, op);
      }
    }
  }

  lemma {:induction false} RunOverpaysIff(w: World, ops: seq<Op>)
    requires Invariant(w) && NoneOverpaid(w)
    ensures NeverOverpaid(w, ops) <==> AffordableRun(w, ops)
    decreases |ops|
  {
    hide Invariant, NoneOverpaid, Affordable, Next;
    if ops != [] {
      StepOverpaysIff(w, ops[0]);
      if Affordable(w, ops[0]) {
        StepKeepsInvariant(w, ops[0]);
        RunOverpaysIff(Next(w, ops[0]), ops[1..]);
      } else {
        StartOfRun(Next(w, ops[0]), ops[1..]);
      }
    }
  }

  lemma StartOfRun(w: World, ops: seq<Op>)
    ensures NeverOverpaid(w, ops) ==> NoneOverpaid(w)
  {
  }

  /** From deployment, over every run of all entry points: no call is ever overpaid if and
      only if each void refund and each redemption that succeeds met its exact guard. */
  lemma NeverOverpaidIff(s: Registry, ops: seq<Op>)
    requires Fresh(s)
    ensures NeverOverpaid(Deployed(s), ops) <==> AffordableRun(Deployed(s), ops)
  {
    hide Invariant, NeverOverpaid, AffordableRun;
    DeployedInvariant(s);
    RunOverpaysIff(Deployed(s), ops);
  }

  /** If nothing unbacked is paid out either, the contract holds what every call owes. */
  lemma AffordableRunsAreCovered(s: Registry, ops: seq<Op>, id: nat)
    requires Fresh(s) && AffordableRun(Deployed(s), ops) && forall i :: 0 <= i < |ops| ==> Backed(ops[i])
    requires (forall token :: Held(s, token) >= 0) && id in Run(Deployed(s), ops).s.calls
    ensures var w := Run(Deployed(s), ops);
      0 <= Debt(w, id) <= Held(w.s, w.s.calls[id].stakeToken)
  {
    hide Run, Invariant, AffordableRun, NeverOverpaid, NoneOverpaid, Held, Debt, Fresh;
    DeployedInvariant(s);
    assert NoneOverpaid(Deployed(s)) by { NobodyYet(s); }
    NeverOverpaidIff(s, ops);
    EndOfRun(Deployed(s), ops);
    var w := Run(Deployed(s), ops);
    EscrowIsSolvent(s, ops, w.s.calls[id].stakeToken);
    DebtIsHeld(w, id);
  }

  lemma NobodyYet(s: Registry)
    requires Fresh(s)
    ensures NoneOverpaid(Deployed(s))
  {
  }

  lemma {:induction false} EndOfRun(w: World, ops: seq<Op>)
    requires NeverOverpaid(w, ops)
    ensures NoneOverpaid(Run(w, ops))
    decreases |ops|
  {
    hide NoneOverpaid, Next;
    if ops != [] {
      EndOfRun(Next(w, ops[0]), ops[1..]);
    }
  }
}
