/** When a payment keeps the debt of a call from going negative: before settlement told
    from what the contract stores, after it also from what was redeemed, which the contract
    does not store. And guards over stored state under which every payment does. */
module RegistryGuards {
  import opened Arithmetic
  import opened Basics
  import opened Sums
  import opened RegistryState
  import opened RegistryHistory
  import opened RegistryLedger
  import opened RegistryRefunds
  import opened RegistryRedemption
  import opened RegistryEscrow
  import opened RegistryPayability

  // ---- The debt of an unsettled call, from the contract's own records ----

  /** The void refunds paid for a call, as flags and records show them. */
  function VoidRefundsOnRecord(s: Registry, id: nat): map<Address, int> {
    map e | e in s.voidClaimed && e.0 == id :: e.1 := UserStakeUpTo(s, id, e.1, 2)
  }

  function ExpiredRefundsOnRecord(s: Registry, id: nat): map<Address, int>
    requires id in s.calls
  {
    map e | e in s.expiredClaimed && e.0 == id :: e.1 := UserStakeUpTo(s, id, e.1, s.calls[id].outcomeCount)
  }

  ghost function RefundedOnRecord(s: Registry, id: nat): int
    requires id in s.calls
  {
    Sum(VoidRefundsOnRecord(s, id)) + Sum(ExpiredRefundsOnRecord(s, id))
  }

  lemma RecordsShowRefunds(w: World, id: nat)
    requires Claims(w) && id in w.s.calls
    ensures GetMap(w.h.voidRefunds, id) == VoidRefundsOnRecord(w.s, id)
    ensures GetMap(w.h.expiredRefunds, id) == ExpiredRefundsOnRecord(w.s, id)
  {
    hide UserStakeUpTo;
    var voids, expired := GetMap(w.h.voidRefunds, id), GetMap(w.h.expiredRefunds, id);
    forall a ensures a in voids <==> (id, a) in w.s.voidClaimed {
    }
    forall a ensures a in expired <==> (id, a) in w.s.expiredClaimed {
    }
    forall a | a in voids ensures voids[a] == UserStakeUpTo(w.s, id, a, 2) {
      assert VoidRefundOwed(w.s, id, a, voids[a]);
    }
    forall a | a in expired ensures expired[a] == UserStakeUpTo(w.s, id, a, w.s.calls[id].outcomeCount) {
      assert ExpiredRefundOwed(w.s, id, a, expired[a]);
    }
  }

  ghost function RedeemedInAll(h: History, id: nat): int {
    Sum(GetMap(h.redeemed, id))
  }

  /** Nothing was redeemed for a call without redemptions on any of its outcomes. */
  lemma NoRedemptionsNothingPaid(w: World, id: nat)
    requires ShareBooks(w) && id in w.s.calls
    requires forall p: nat :: Get(w.h.redemptions, (id, p)) == 0
    ensures RedeemedInAll(w.h, id) == 0
  {
    hide Rounded, Pot;
    var paid := GetMap(w.h.redeemed, id);
    forall p | p in paid ensures paid[p] == 0 {
      assert ShareBookAt(w, id, p) && Get(w.h.redemptions, (id, p)) == 0;
      assert Get(paid, p) == paid[p];
    }
    SumOfZeros(paid);
  }

  lemma UnsettledHasNoRedemptions(w: World, id: nat)
    requires ShareBooks(w) && id in w.s.calls && !w.s.calls[id].settled
    ensures forall p: nat :: Get(w.h.redemptions, (id, p)) == 0
  {
    hide Rounded, Pot;
    forall p: nat ensures Get(w.h.redemptions, (id, p)) == 0 {
      assert ShareBookAt(w, id, p);
    }
  }

  /** The debt of a call is its pot less the refunds on record and less what was redeemed;
      before settlement it can be read from the contract alone. */
  lemma DebtFromRecords(w: World, id: nat)
    requires Claims(w) && ShareBooks(w) && id in w.s.calls
    ensures Debt(w, id) == Pot(w.s.calls[id]) - RefundedOnRecord(w.s, id) - RedeemedInAll(w.h, id)
    ensures !w.s.calls[id].settled ==> RedeemedInAll(w.h, id) == 0
  {
    hide Pot, Claims, ShareBooks, VoidRefundsOnRecord, ExpiredRefundsOnRecord;
    RecordsShowRefunds(w, id);
    if !w.s.calls[id].settled {
      UnsettledHasNoRedemptions(w, id);
      NoRedemptionsNothingPaid(w, id);
    }
  }

  // ---- One payment ----

  /** The debt of a call in any state; a call that does not exist owes nothing. */
  ghost function DebtOf(w: World, id: nat): int {
    if id in w.s.calls then Debt(w, id) else 0
  }

  lemma VoidRefundLowersDebt(w: World, staker: Address, id: nat)
    requires Claims(w) && id in w.s.calls && ClaimVoidRefund(w.s, staker, id).Ok?
    ensures var w' := Next(w, OpVoidRefund(staker, id));
      && w'.s.calls == w.s.calls
      && DebtOf(w', id) == DebtOf(w, id) - UserStakeUpTo(w.s, id, staker, 2)
  {
    hide PotPaid, Pot, UserStakeUpTo;
    VoidRefundShape(w.s, staker, id);
    VoidRefundPaid(w.s, w.h, staker, id);
  }

  lemma ExpiredRefundLowersDebt(w: World, staker: Address, id: nat)
    requires Claims(w) && id in w.s.calls && ClaimExpiredRefund(w.s, staker, id).Ok?
    ensures var w' := Next(w, OpExpiredRefund(staker, id));
      && w'.s.calls == w.s.calls
      && DebtOf(w', id) == DebtOf(w, id) - UserStakeUpTo(w.s, id, staker, w.s.calls[id].outcomeCount)
  {
    hide PotPaid, Pot, UserStakeUpTo;
    ExpiredRefundShape(w.s, staker, id);
    ExpiredRefundPaid(w.s, w.h, staker, id);
  }

  lemma RedemptionLowersDebt(w: World, redeemer: Address, id: nat)
    requires id in w.s.calls && RedeemShares(w.s, redeemer, id).Ok?
    ensures var w' := Next(w, OpRedeem(redeemer, id));
      && w'.s.calls == w.s.calls
      && DebtOf(w', id) == DebtOf(w, id) - RedemptionPayout(w.s, redeemer, id)
  {
    hide PotPaid, Pot, Payout;
    RedeemShape(w.s, redeemer, id);
    RedemptionPaid(w.s, w.h, redeemer, id);
  }

  /** A refund after expiry needs no guard: it always leaves the debt non-negative. */
  lemma ExpiredRefundKeepsDebt(w: World, staker: Address, id: nat)
    requires Invariant(w) && id in w.s.calls && ClaimExpiredRefund(w.s, staker, id).Ok?
    ensures DebtOf(Next(w, OpExpiredRefund(staker, id)), id) >= 0
  {
    hide Books, Claims, ShareBooks, Debt, ClaimExpiredRefund;
    var w' := Next(w, OpExpiredRefund(staker, id));
    ExpiredRefundLowersDebt(w, staker, id);
    UnvoidedUnsettled(w.s, staker, id);
    StepKeepsInvariant(w, OpExpiredRefund(staker, id));
    OnlyExpiredOnOpenRecords(w', id);
    NoOverpaymentOfExpired(w', id);
  }

  lemma UnvoidedUnsettled(s: Registry, staker: Address, id: nat)
    requires ClaimExpiredRefund(s, staker, id).Ok?
    ensures id in s.calls && !s.calls[id].settled && !s.calls[id].voided
  {
  }

  lemma OnlyExpiredOnOpenRecords(w: World, id: nat)
    requires Claims(w) && ShareBooks(w) && id in w.s.calls && !w.s.calls[id].settled && !w.s.calls[id].voided
    ensures GetMap(w.h.voidRefunds, id) == map[] && RedeemedInAll(w.h, id) == 0
  {
    hide ShareBooks, UserStakeUpTo;
    var voids := GetMap(w.h.voidRefunds, id);
    assert forall a :: a in voids ==> VoidRefundOwed(w.s, id, a, voids[a]);
    assert voids.Keys == {};
    UnsettledHasNoRedemptions(w, id);
    NoRedemptionsNothingPaid(w, id);
  }

  lemma NoOverpaymentOfExpired(w: World, id: nat)
    requires Books(w) && Claims(w) && id in w.s.calls
    requires GetMap(w.h.voidRefunds, id) == map[] && RedeemedInAll(w.h, id) == 0
    ensures Debt(w, id) >= 0
  {
    hide Books, Claims, Pot;
    RefundsWithinPot(w, id);
    assert Sum<Address>(map[]) == 0;
  }

  /** A void refund on an unsettled call keeps the debt non-negative exactly when it is at
      most the pot less the refunds on record, all of which the contract stores. */
  lemma VoidRefundKeepsDebtIff(w: World, staker: Address, id: nat)
    requires Invariant(w) && id in w.s.calls && ClaimVoidRefund(w.s, staker, id).Ok? && !w.s.calls[id].settled
    ensures DebtOf(Next(w, OpVoidRefund(staker, id)), id) >= 0
            <==> UserStakeUpTo(w.s, id, staker, 2) <= Pot(w.s.calls[id]) - RefundedOnRecord(w.s, id)
  {
    hide Books, Claims, ShareBooks, Debt, Pot, RefundedOnRecord, ClaimVoidRefund, UserStakeUpTo;
    VoidRefundLowersDebt(w, staker, id);
    DebtFromRecords(w, id);
  }

  /** On a settled call what was redeemed counts as well, which the contract does not store. */
  lemma LateVoidRefundKeepsDebtIff(w: World, staker: Address, id: nat)
    requires Invariant(w) && id in w.s.calls && ClaimVoidRefund(w.s, staker, id).Ok?
    ensures DebtOf(Next(w, OpVoidRefund(staker, id)), id) >= 0
            <==> UserStakeUpTo(w.s, id, staker, 2)
                 <= Pot(w.s.calls[id]) - RefundedOnRecord(w.s, id) - RedeemedInAll(w.h, id)
  {
    hide Books, Claims, ShareBooks, Debt, Pot, RefundedOnRecord, RedeemedInAll, ClaimVoidRefund, UserStakeUpTo;
    VoidRefundLowersDebt(w, staker, id);
    DebtFromRecords(w, id);
  }

  /** A redemption keeps the debt non-negative exactly when the shares, at their exact worth,
      fit what is left of the pot after refunds and earlier redemptions, up to the unit that
      rounding forgives. It covers refunds paid before settlement, void refunds of a call
      settled afterwards, and redemptions before a second resolution. */
  lemma RedemptionKeepsDebtIff(w: World, redeemer: Address, id: nat)
    requires Invariant(w) && id in w.s.calls && RedeemShares(w.s, redeemer, id).Ok?
    ensures var c := w.s.calls[id];
      var left := Pot(c) - RefundedOnRecord(w.s, id) - RedeemedInAll(w.h, id);
      DebtOf(Next(w, OpRedeem(redeemer, id)), id) >= 0
      <==> ShareBalance(w.s, id, c.outcome, redeemer) * Pot(c) < (left + 1) * Get(c.outcomeStakes, c.outcome)
  {
    hide Books, Claims, ShareBooks, Debt, Pot, RefundedOnRecord, RedeemedInAll, RedeemShares;
    RedemptionLowersDebt(w, redeemer, id);
    DebtFromRecords(w, id);
    RedemptionHasStake(w.s, redeemer, id);
    var c := w.s.calls[id];
    DivAtLeast(ShareBalance(w.s, id, c.outcome, redeemer) * Pot(c), Get(c.outcomeStakes, c.outcome), Debt(w, id) + 1);
  }

  lemma RedemptionHasStake(s: Registry, redeemer: Address, id: nat)
    requires RedeemShares(s, redeemer, id).Ok?
    ensures id in s.calls && Get(s.calls[id].outcomeStakes, s.calls[id].outcome) > 0
  {
  }

  /** Redeeming all shares of an outcome nobody left early, as the first redemption of the
      call, keeps the debt non-negative exactly when no refund was paid before. */
  lemma FullRedemptionKeepsDebtIff(w: World, redeemer: Address, id: nat)
    requires Invariant(w) && id in w.s.calls && RedeemShares(w.s, redeemer, id).Ok? && RedeemedInAll(w.h, id) == 0
    requires var c := w.s.calls[id]; ShareBalance(w.s, id, c.outcome, redeemer) == Get(c.outcomeStakes, c.outcome)
    ensures DebtOf(Next(w, OpRedeem(redeemer, id)), id) >= 0 <==> RefundedOnRecord(w.s, id) <= 0
  {
    hide Invariant, Debt, Pot, RefundedOnRecord, RedeemedInAll, RedeemShares;
    RedemptionHasStake(w.s, redeemer, id);
    RedemptionKeepsDebtIff(w, redeemer, id);
    var c := w.s.calls[id];
    var winning, refunded := Get(c.outcomeStakes, c.outcome), RefundedOnRecord(w.s, id);
    Distribute(Pot(c), 1 - refunded, winning);
    if refunded <= 0 {
      MulMonotone(1, 1 - refunded, winning);
    } else {
      MulMonotone(1 - refunded, 0, winning);
    }
  }

  // ---- Guards that a caller can check ----

  /** No refund of the call is on record. */
  ghost predicate Unrefunded(s: Registry, id: nat) {
    forall a :: (id, a) !in s.voidClaimed && (id, a) !in s.expiredClaimed
  }

  /** The guards that the contract lacks, over what it stores: no void refund after an expiry
      refund to the same staker or after settlement; no redemption after a refund, or while
      more shares circulate than stake backs them; no second outcome once settled. */
  ghost predicate Fair(s: Registry, op: Op) {
    match op
    case OpVoidRefund(staker, id) => id in s.calls ==> (id, staker) !in s.expiredClaimed && !s.calls[id].settled
    case OpRedeem(_, id) =>
      id in s.calls ==>
        && Unrefunded(s, id)
        && Sum(GetMap(s.shares, (id, s.calls[id].outcome))) <= Get(s.calls[id].outcomeStakes, s.calls[id].outcome)
    case OpResolve(_, id, outcome, _) =>
      id in s.calls && s.calls[id].settled ==> s.calls[id].outcome == 0 || s.calls[id].outcome == outcome
    case _ => true
  }

  /** What such a run keeps about one call: nobody has both refunds, and redemptions are of
      the settled outcome only, which nobody left early, of a call without refunds. */
  ghost predicate FairAt(w: World, id: nat)
    requires id in w.s.calls
  {
    && (forall a :: !((id, a) in w.s.voidClaimed && (id, a) in w.s.expiredClaimed))
    && forall p: nat :: Get(w.h.redemptions, (id, p)) > 0 ==> RedeemedFairly(w, id, p)
  }

  ghost predicate RedeemedFairly(w: World, id: nat, p: nat)
    requires id in w.s.calls
  {
    && w.s.calls[id].settled && 0 < p == w.s.calls[id].outcome && Get(w.h.withdrawn, (id, p)) == 0
    && Unrefunded(w.s, id)
  }

  ghost predicate AllFair(w: World) {
    forall id :: id in w.s.calls ==> FairAt(w, id)
  }

  /** A settled call keeps its outcome and its early exits. */
  ghost predicate SettledKept(w: World, w': World, id: nat)
    requires id in w.s.calls
  {
    && id in w'.s.calls
    && (w.s.calls[id].settled ==>
          && w'.s.calls[id].settled
          && (w.s.calls[id].outcome != 0 ==> w'.s.calls[id].outcome == w.s.calls[id].outcome)
          && forall p: nat :: Get(w'.h.withdrawn, (id, p)) == Get(w.h.withdrawn, (id, p)))
  }

  lemma KeptStaysFair(w: World, w': World, id: nat)
    requires id in w.s.calls && FairAt(w, id) && SettledKept(w, w', id)
    requires w'.s.voidClaimed == w.s.voidClaimed && w'.s.expiredClaimed == w.s.expiredClaimed
    requires w'.h.redemptions == w.h.redemptions
    ensures FairAt(w', id)
  {
    forall p: nat | Get(w'.h.redemptions, (id, p)) > 0 ensures RedeemedFairly(w', id, p) {
      assert RedeemedFairly(w, id, p);
    }
  }

  lemma FlagOpKeepsSettled(w: World, op: Op, id: nat)
    requires FlagOp(op) && Execute(w.s, op).Ok? && Fair(w.s, op) && id in w.s.calls
    ensures SettledKept(w, Next(w, op), id)
  {
    hide FitsI128, Transfer, Pot, CancelCall, EmergencyCancelCall, ResolveCall, Unrefunded, Sum;
    match op
    case OpResolve(caller, j, outcome, endPrice) => ResolveShape(w.s, caller, j, outcome, endPrice);
    case OpCancel(creator, j) => CancelShape(w.s, creator, j);
    case OpEmergencyCancel(caller, j) => EmergencyCancelShape(w.s, caller, j);
    case _ =>
  }

  lemma PaymentKeepsSettled(w: World, op: Op, id: nat)
    requires PaymentOp(op) && Execute(w.s, op).Ok? && id in w.s.calls
    ensures SettledKept(w, Next(w, op), id)
  {
    hide Execute;
    PaymentOpShape(w.s, op);
  }

  lemma CreateKeepsSettled(w: World, op: Op, id: nat)
    requires op.OpCreate? && Execute(w.s, op).Ok? && id in w.s.calls && id <= w.s.callCounter
    ensures SettledKept(w, Next(w, op), id)
  {
    hide EmptyOutcomes, EmptyStakes;
    CreateShape(w.s, op.creator, op.token, op.stakeAmount, op.startPrice, op.endTs, op.outcomeCount);
  }

  lemma StakeKeepsSettled(w: World, op: Op, id: nat)
    requires op.OpStake? && Execute(w.s, op).Ok? && id in w.s.calls
    ensures SettledKept(w, Next(w, op), id)
  {
    hide Stake, CreditCall, Minted, Counted;
    StakeShape(w.s, op.funder, op.staker, op.call, op.amount, op.position, op.delivered, op.qualifies);
  }

  lemma WithdrawKeepsSettled(w: World, op: Op, id: nat)
    requires op.OpWithdraw? && Execute(w.s, op).Ok? && id in w.s.calls
    ensures SettledKept(w, Next(w, op), id)
  {
    hide WithdrawStake, LeaveCall, Penalty;
    WithdrawShape(w.s, op.staker, op.call, op.position);
  }

  lemma StepKeepsSettled(w: World, op: Op, id: nat)
    requires Books(w) && Execute(w.s, op).Ok? && Fair(w.s, op) && id in w.s.calls
    ensures SettledKept(w, Next(w, op), id)
  {
    hide SettledKept, Execute, Next, Fair, CallsBalanced, RecordsAgree;
    if FlagOp(op) {
      FlagOpKeepsSettled(w, op, id);
    } else if PaymentOp(op) {
      PaymentKeepsSettled(w, op, id);
    } else if op.OpCreate? {
      CreateKeepsSettled(w, op, id);
    } else if op.OpStake? {
      StakeKeepsSettled(w, op, id);
    } else {
      WithdrawKeepsSettled(w, op, id);
    }
  }

  /** A call that comes into being is fair: nothing is on record for it. */
  lemma NewCallIsFair(w: World, w': World, id: nat)
    requires Claims(w) && ShareBooks(w) && id !in w.s.calls && id in w'.s.calls
    requires w'.s.voidClaimed == w.s.voidClaimed && w'.s.expiredClaimed == w.s.expiredClaimed
    requires w'.h.redemptions == w.h.redemptions
    ensures FairAt(w', id)
  {
    hide UserStakeUpTo, Claims;
    forall a ensures (id, a) !in w'.s.voidClaimed {
      NoVoidRefundYet(w, id, a);
    }
    forall p: nat ensures Get(w'.h.redemptions, (id, p)) == 0 {
      assert NoShareBook(w, id, p);
    }
  }

  lemma NoVoidRefundYet(w: World, id: nat, a: Address)
    requires Claims(w) && id !in w.s.calls
    ensures (id, a) !in w.s.voidClaimed
  {
    hide UserStakeUpTo;
  }

  lemma VoidRefundStaysFair(w: World, staker: Address, id: nat)
    requires ShareBooks(w) && AllFair(w) && ClaimVoidRefund(w.s, staker, id).Ok? && Fair(w.s, OpVoidRefund(staker, id))
    ensures AllFair(Next(w, OpVoidRefund(staker, id)))
  {
    hide UserStakeUpTo, ShareBooks, ClaimVoidRefund;
    var w' := Next(w, OpVoidRefund(staker, id));
    VoidRefundShape(w.s, staker, id);
    UnsettledHasNoRedemptions(w, id);
    forall j | j in w'.s.calls ensures FairAt(w', j) {
      assert FairAt(w, j);
      forall p: nat | Get(w'.h.redemptions, (j, p)) > 0 ensures RedeemedFairly(w', j, p) {
        assert RedeemedFairly(w, j, p);
      }
    }
  }

  lemma ExpiredRefundStaysFair(w: World, staker: Address, id: nat)
    requires Claims(w) && ShareBooks(w) && AllFair(w) && ClaimExpiredRefund(w.s, staker, id).Ok?
    ensures AllFair(Next(w, OpExpiredRefund(staker, id)))
  {
    hide UserStakeUpTo, ShareBooks, ClaimExpiredRefund;
    var w' := Next(w, OpExpiredRefund(staker, id));
    ExpiredRefundShape(w.s, staker, id);
    UnvoidedUnsettled(w.s, staker, id);
    OnlyExpiredOnOpenRecords(w, id);
    assert (id, staker) in w.s.voidClaimed <==> staker in GetMap(w.h.voidRefunds, id);
    UnsettledHasNoRedemptions(w, id);
    forall j | j in w'.s.calls ensures FairAt(w', j) {
      assert FairAt(w, j);
      forall p: nat | Get(w'.h.redemptions, (j, p)) > 0 ensures RedeemedFairly(w', j, p) {
        assert RedeemedFairly(w, j, p);
      }
    }
  }

  /** With no more shares in circulation than stake, nobody can have left early: nothing was
      burned yet, or the first redemption already found it so. */
  lemma NobodyLeft(w: World, id: nat)
    requires ShareBooks(w) && id in w.s.calls && FairAt(w, id) && w.s.calls[id].hasShares
    requires var p := w.s.calls[id].outcome;
      Sum(GetMap(w.s.shares, (id, p))) <= Get(w.s.calls[id].outcomeStakes, p)
    ensures Get(w.h.withdrawn, (id, w.s.calls[id].outcome)) == 0
  {
    hide Rounded, Pot, Unrefunded;
    var p := w.s.calls[id].outcome;
    assert ShareBookAt(w, id, p);
    if Get(w.h.redemptions, (id, p)) > 0 {
      assert RedeemedFairly(w, id, p);
    }
  }

  lemma RedemptionStaysFair(w: World, redeemer: Address, id: nat)
    requires ShareBooks(w) && AllFair(w) && RedeemShares(w.s, redeemer, id).Ok? && Fair(w.s, OpRedeem(redeemer, id))
    ensures AllFair(Next(w, OpRedeem(redeemer, id)))
  {
    hide ShareBooks, RedeemShares, Payout;
    var w' := Next(w, OpRedeem(redeemer, id));
    RedeemShape(w.s, redeemer, id);
    NobodyLeft(w, id);
    forall j | j in w'.s.calls ensures FairAt(w', j) {
      assert FairAt(w, j);
      forall p: nat | Get(w'.h.redemptions, (j, p)) > 0 ensures RedeemedFairly(w', j, p) {
        if !(j == id && p == w.s.calls[id].outcome) {
          assert RedeemedFairly(w, j, p);
        }
      }
    }
  }

  lemma OtherStepStaysFair(w: World, op: Op)
    requires Books(w) && Claims(w) && ShareBooks(w) && AllFair(w) && Execute(w.s, op).Ok? && Fair(w.s, op)
    requires !op.OpVoidRefund? && !op.OpExpiredRefund? && !op.OpRedeem?
    ensures AllFair(Next(w, op))
  {
    hide Books, Claims, ShareBooks, FairAt, Fair, SettledKept, Execute;
    var w' := Next(w, op);
    OtherOpsKeepClaims(w, op);
    forall id | id in w'.s.calls ensures FairAt(w', id) {
      if id in w.s.calls {
        StepKeepsSettled(w, op, id);
        KeptStaysFair(w, w', id);
      } else {
        NewCallIsFair(w, w', id);
      }
    }
  }

  lemma StepStaysFair(w: World, op: Op)
    requires Invariant(w) && AllFair(w) && (Execute(w.s, op).Ok? ==> Fair(w.s, op))
    ensures AllFair(Next(w, op))
  {
    hide Books, Claims, ShareBooks, AllFair, Fair;
    if Execute(w.s, op).Ok? {
      if op.OpVoidRefund? {
        VoidRefundStaysFair(w, op.staker, op.call);
      } else if op.OpExpiredRefund? {
        ExpiredRefundStaysFair(w, op.staker, op.call);
      } else if op.OpRedeem? {
        RedemptionStaysFair(w, op.redeemer, op.call);
      } else {
        OtherStepStaysFair(w, op);
      }
    }
  }

  // ---- Fair calls are not overpaid ----

  /** Everybody refunded so far, with what they were paid. */
  function Refunds(h: History, id: nat): map<Address, int> {
    GetMap(h.voidRefunds, id) + GetMap(h.expiredRefunds, id)
  }

  /** In a fair call no refund exceeds the stake of its staker, and they add up as one list. */
  lemma FairRefunds(w: World, id: nat)
    requires Books(w) && Claims(w) && id in w.s.calls && FairAt(w, id)
    ensures forall a :: a in Refunds(w.h, id) ==>
                          Refunds(w.h, id)[a] <= UserStakeUpTo(w.s, id, a, w.s.calls[id].outcomeCount)
    ensures Sum(Refunds(w.h, id)) == Sum(GetMap(w.h.voidRefunds, id)) + Sum(GetMap(w.h.expiredRefunds, id))
    ensures forall a :: a in Refunds(w.h, id) <==> (id, a) in w.s.voidClaimed || (id, a) in w.s.expiredClaimed
  {
    hide UserStakeUpTo, UserStake;
    var n, voids, expired := w.s.calls[id].outcomeCount, GetMap(w.h.voidRefunds, id), GetMap(w.h.expiredRefunds, id);
    forall a ensures a in voids <==> (id, a) in w.s.voidClaimed {
    }
    forall a ensures a in expired <==> (id, a) in w.s.expiredClaimed {
    }
    SumDisjoint(voids, expired);
    assert n >= 2 by { assert CallBalanced(w.h.forfeited, id, w.s.calls[id]); }
    forall a | a in Refunds(w.h, id) ensures Refunds(w.h, id)[a] <= UserStakeUpTo(w.s, id, a, n) {
      if a in expired {
        assert ExpiredRefundOwed(w.s, id, a, expired[a]);
      } else {
        assert VoidRefundOwed(w.s, id, a, voids[a]);
        TwoWithinAll(w, id, a);
      }
    }
  }

  lemma TwoWithinAll(w: World, id: nat, a: Address)
    requires Books(w) && id in w.s.calls
    ensures UserStakeUpTo(w.s, id, a, 2) <= UserStakeUpTo(w.s, id, a, w.s.calls[id].outcomeCount)
  {
    hide UserStake, UserStakeUpTo;
    forall p: nat ensures UserStake(w.s, id, a, p) >= 0 {
      RecordIsEntry(w, a, id, p);
    }
    assert CallBalanced(w.h.forfeited, id, w.s.calls[id]);
    MorePositionsSameTotal(w.s, id, a, 2, w.s.calls[id].outcomeCount);
  }

  /** While nothing was redeemed, a call owes every staker not refunded yet. */
  lemma UnredeemedOwes(w: World, id: nat, a: Address, due: int)
    requires Invariant(w) && id in w.s.calls && FairAt(w, id)
    requires RedeemedInAll(w.h, id) == 0 && due <= UserStakeUpTo(w.s, id, a, w.s.calls[id].outcomeCount)
    requires (id, a) !in w.s.voidClaimed && (id, a) !in w.s.expiredClaimed
    ensures Debt(w, id) >= due && Debt(w, id) >= 0
  {
    hide Books, Claims, ShareBooks, FairAt, UserStakeUpTo, Pot, Refunds;
    FairRefunds(w, id);
    var refunds := Refunds(w.h, id);
    ListWithinPot(w, id, refunds, w.s.calls[id].outcomeCount);
    ListWithinPot(w, id, refunds[a := due], w.s.calls[id].outcomeCount);
    assert a !in refunds;
    SumUpdate(refunds, a, due);
  }

  lemma UnredeemedNotOverpaid(w: World, id: nat)
    requires Invariant(w) && id in w.s.calls && FairAt(w, id) && RedeemedInAll(w.h, id) == 0
    ensures Debt(w, id) >= 0
  {
    hide Books, Claims, ShareBooks, FairAt, UserStakeUpTo, Pot, Refunds;
    FairRefunds(w, id);
    ListWithinPot(w, id, Refunds(w.h, id), w.s.calls[id].outcomeCount);
  }

  /** Once something was redeemed, that outcome's redemptions are all that was paid. */
  lemma RedeemedIsAllPaid(w: World, id: nat, p: nat)
    requires Invariant(w) && id in w.s.calls && FairAt(w, id)
    requires p == w.s.calls[id].outcome && Unrefunded(w.s, id)
    ensures PotPaid(w.h, id) == Redeemed(w, id, p)
  {
    hide Books, UserStakeUpTo, Rounded, Pot;
    var voids, expired, paid := GetMap(w.h.voidRefunds, id), GetMap(w.h.expiredRefunds, id), GetMap(w.h.redeemed, id);
    forall a ensures a in voids <==> (id, a) in w.s.voidClaimed {
    }
    forall a ensures a in expired <==> (id, a) in w.s.expiredClaimed {
    }
    assert voids.Keys == {} && expired.Keys == {};
    assert voids == map[] && expired == map[];
    assert Sum<Address>(map[]) == 0;
    forall q | q in paid && q != p ensures paid[q] == 0 {
      assert ShareBookAt(w, id, q);
      var count := Get(w.h.redemptions, (id, q));
      assert count == 0;
    }
    SumOfOneEntry(paid, p);
  }

  lemma SumOfOneEntry(m: map<nat, int>, p: nat)
    requires forall q :: q in m && q != p ==> m[q] == 0
    ensures Sum(m) == Get(m, p)
  {
    SumDelete(m, p);
    SumOfZeros(m - {p});
  }

  lemma FairCallNotOverpaid(w: World, id: nat)
    requires Invariant(w) && id in w.s.calls && FairAt(w, id)
    ensures Debt(w, id) >= 0
  {
    hide Books, Claims, ShareBooks, Pot, PotPaid, Unrefunded, RedeemedInAll, Redeemed;
    if p: nat :| Get(w.h.redemptions, (id, p)) > 0 {
      assert RedeemedFairly(w, id, p);
      RedeemedIsAllPaid(w, id, p);
      RedemptionsWithinPot(w, id, p);
    } else {
      NonNegativeCounts(w, id);
      NoRedemptionsNothingPaid(w, id);
      UnredeemedNotOverpaid(w, id);
    }
  }

  lemma NonNegativeCounts(w: World, id: nat)
    requires ShareBooks(w) && id in w.s.calls
    ensures forall p: nat :: Get(w.h.redemptions, (id, p)) >= 0
  {
    hide Rounded, Pot;
    forall p: nat ensures Get(w.h.redemptions, (id, p)) >= 0 {
      assert ShareBookAt(w, id, p);
    }
  }

  // ---- Fair runs ----

  /** Nothing unbacked is paid out and every transaction that succeeds meets its guard. */
  ghost predicate FairRun(w: World, ops: seq<Op>)
    decreases |ops|
  {
    ops != [] ==>
      Backed(ops[0]) && (Execute(w.s, ops[0]).Ok? ==> Fair(w.s, ops[0])) && FairRun(Next(w, ops[0]), ops[1..])
  }

  lemma {:induction false} FairRunStaysFair(w: World, ops: seq<Op>)
    requires Invariant(w) && AllFair(w) && FairRun(w, ops)
    ensures Invariant(Run(w, ops)) && AllFair(Run(w, ops))
    decreases |ops|
  {
    hide Invariant, AllFair, Fair, Next, Execute;
    if ops != [] {
      StepKeepsInvariant(w, ops[0]);
      StepStaysFair(w, ops[0]);
      FairRunStaysFair(Next(w, ops[0]), ops[1..]);
    }
  }

  lemma {:induction false} FairRunIsBacked(w: World, ops: seq<Op>)
    requires FairRun(w, ops)
    ensures forall i :: 0 <= i < |ops| ==> Backed(ops[i])
    decreases |ops|
  {
    hide Fair, Next, Backed, Execute;
    if ops != [] {
      FairRunIsBacked(Next(w, ops[0]), ops[1..]);
      forall i | 0 <= i < |ops| ensures Backed(ops[i]) {
        assert i > 0 ==> ops[i] == ops[1..][i - 1];
      }
    }
  }

  /** From deployment: in a fair run no call is ever overpaid, and the contract holds what
      each call still owes. */
  lemma FairRunsNeverOverpay(s: Registry, ops: seq<Op>, id: nat)
    requires Fresh(s) && FairRun(Deployed(s), ops)
    requires forall token :: Held(s, token) >= 0
    ensures var w := Run(Deployed(s), ops);
      && Invariant(w) && AllFair(w)
      && (id in w.s.calls ==> 0 <= Debt(w, id) <= Held(w.s, w.s.calls[id].stakeToken))
  {
    hide Run, Invariant, AllFair, FairRun, Fresh, Held, Debt;
    DeployedInvariant(s);
    DeployedIsFair(s);
    FairRunStaysFair(Deployed(s), ops);
    FairRunIsBacked(Deployed(s), ops);
    var w := Run(Deployed(s), ops);
    if id in w.s.calls {
      EscrowIsSolvent(s, ops, w.s.calls[id].stakeToken);
      NobodyInFairWorlds(w);
      DebtIsHeld(w, id);
    }
  }

  lemma DeployedIsFair(s: Registry)
    requires Fresh(s)
    ensures AllFair(Deployed(s))
  {
  }

  ghost predicate NoneOverpaid(w: World) {
    forall id :: id in w.s.calls ==> Debt(w, id) >= 0
  }

  lemma NobodyInFairWorlds(w: World)
    requires Invariant(w) && AllFair(w)
    ensures NoneOverpaid(w)
  {
    hide Invariant, FairAt, Debt;
    forall id | id in w.s.calls ensures Debt(w, id) >= 0 {
      FairCallNotOverpaid(w, id);
    }
  }

  lemma DebtIsHeld(w: World, id: nat)
    requires NoneOverpaid(w) && id in w.s.calls
    requires Held(w.s, w.s.calls[id].stakeToken) >= Owed(w, w.s.calls[id].stakeToken)
    ensures 0 <= Debt(w, id) <= Held(w.s, w.s.calls[id].stakeToken)
  {
    hide Sum, Debt;
    SumBoundsEntry(DueIn(Debts(w), Tokens(w.s), w.s.calls[id].stakeToken), id);
  }

  /** In a fair run a staker of a voided, unsettled call who has had no refund is paid; only
      an overflow of an i128 can prevent it. */
  lemma VoidRefundIsPaidInFairRuns(s: Registry, ops: seq<Op>, staker: Address, id: nat)
    requires Fresh(s) && FairRun(Deployed(s), ops) && forall token :: Held(s, token) >= 0
    requires var t := Run(Deployed(s), ops).s;
      && id in t.calls && t.calls[id].voided && !t.calls[id].settled
      && (id, staker) !in t.voidClaimed && (id, staker) !in t.expiredClaimed && UserStakeUpTo(t, id, staker, 2) > 0
    ensures var t := Run(Deployed(s), ops).s;
      ClaimVoidRefund(t, staker, id).Ok? || ClaimVoidRefund(t, staker, id) == Err(Overflow)
  {
    hide Run, Books, Claims, ShareBooks, FairAt, FairRun, Fresh, Held, Debt, UserStakeUpTo, RedeemedInAll;
    var w := Run(Deployed(s), ops);
    FairRunsNeverOverpay(s, ops, id);
    UnsettledHasNoRedemptions(w, id);
    NoRedemptionsNothingPaid(w, id);
    TwoWithinAll(w, id, staker);
    UnredeemedOwes(w, id, staker, UserStakeUpTo(w.s, id, staker, 2));
    HeldCoversVoidRefund(w.s, staker, id);
  }

  lemma HeldCoversVoidRefund(s: Registry, staker: Address, id: nat)
    requires id in s.calls && s.calls[id].voided && (id, staker) !in s.voidClaimed
    requires 0 < UserStakeUpTo(s, id, staker, 2) <= Held(s, s.calls[id].stakeToken)
    ensures ClaimVoidRefund(s, staker, id).Ok? || ClaimVoidRefund(s, staker, id) == Err(Overflow)
  {
    hide UserStakeUpTo, FitsI128;
    UnfoldsToTwo(s, id, staker);
  }

  /** ... a staker of an expired call, neither settled nor voided, likewise ... */
  lemma ExpiredRefundIsPaidInFairRuns(s: Registry, ops: seq<Op>, staker: Address, id: nat)
    requires Fresh(s) && FairRun(Deployed(s), ops) && forall token :: Held(s, token) >= 0
    requires var t := Run(Deployed(s), ops).s;
      && id in t.calls && !t.calls[id].voided && !t.calls[id].settled && (id, staker) !in t.expiredClaimed
      && t.now > t.calls[id].endTs + t.config.gracePeriod
      && UserStakeUpTo(t, id, staker, t.calls[id].outcomeCount) > 0
    ensures var t := Run(Deployed(s), ops).s;
      ClaimExpiredRefund(t, staker, id).Ok? || ClaimExpiredRefund(t, staker, id) == Err(Overflow)
  {
    hide Run, Books, Claims, ShareBooks, FairAt, FairRun, Fresh, Held, Debt, UserStakeUpTo, RedeemedInAll;
    var w := Run(Deployed(s), ops);
    FairRunsNeverOverpay(s, ops, id);
    OnlyExpiredOnOpenRecords(w, id);
    NotVoidRefunded(w, staker, id);
    UnredeemedOwes(w, id, staker, UserStakeUpTo(w.s, id, staker, w.s.calls[id].outcomeCount));
    HeldCoversExpiredRefund(w.s, staker, id);
  }

  lemma NotVoidRefunded(w: World, staker: Address, id: nat)
    requires Claims(w) && GetMap(w.h.voidRefunds, id) == map[]
    ensures (id, staker) !in w.s.voidClaimed
  {
  }

  lemma HeldCoversExpiredRefund(s: Registry, staker: Address, id: nat)
    requires id in s.calls && !s.calls[id].voided && !s.calls[id].settled && (id, staker) !in s.expiredClaimed
    requires s.now > s.calls[id].endTs + s.config.gracePeriod
    requires 0 < UserStakeUpTo(s, id, staker, s.calls[id].outcomeCount) <= Held(s, s.calls[id].stakeToken)
    ensures ClaimExpiredRefund(s, staker, id).Ok? || ClaimExpiredRefund(s, staker, id) == Err(Overflow)
  {
    hide UserStakeUpTo, FitsI128;
  }

  /** ... and a holder of shares of the settled outcome, of a call without refunds and with
      no more shares than stake, is paid at least one unit for each share. */
  lemma RedemptionIsPaidInFairRuns(s: Registry, ops: seq<Op>, redeemer: Address, id: nat)
    requires Fresh(s) && FairRun(Deployed(s), ops) && forall token :: Held(s, token) >= 0
    requires var t := Run(Deployed(s), ops).s;
      && id in t.calls && t.calls[id].settled && t.calls[id].hasShares && t.calls[id].outcome > 0
      && Fair(t, OpRedeem(redeemer, id)) && ShareBalance(t, id, t.calls[id].outcome, redeemer) > 0
    ensures var t := Run(Deployed(s), ops).s;
      && (RedeemShares(t, redeemer, id).Ok? || RedeemShares(t, redeemer, id) == Err(Overflow))
      && RedemptionPayout(t, redeemer, id) >= ShareBalance(t, id, t.calls[id].outcome, redeemer)
  {
    hide Run, Books, Claims, ShareBooks, FairAt, FairRun, Fresh, Held, Debt, Payout, Pot, Unrefunded;
    var w := Run(Deployed(s), ops);
    FairRunsNeverOverpay(s, ops, id);
    NobodyLeft(w, id);
    RedemptionCoversShares(w, redeemer, id);
    FairRedemptionWithinDebt(w, redeemer, id);
    HeldCoversRedemption(w.s, redeemer, id);
  }

  lemma FairRedemptionWithinDebt(w: World, redeemer: Address, id: nat)
    requires Invariant(w) && id in w.s.calls && FairAt(w, id) && w.s.calls[id].hasShares && Unrefunded(w.s, id)
    requires Get(w.h.withdrawn, (id, w.s.calls[id].outcome)) == 0
    requires ShareBalance(w.s, id, w.s.calls[id].outcome, redeemer) > 0
    ensures RedemptionPayout(w.s, redeemer, id) <= Debt(w, id)
  {
    hide PotPaid, Pot, PotUpTo, Books, Claims, ShareBooks, ShareBookAt, Payout, Rounded, FairAt, Unrefunded, Redeemed;
    var c := w.s.calls[id];
    var p, held := c.outcome, ShareBalance(w.s, id, c.outcome, redeemer);
    RedeemableBook(w, redeemer, id, p);
    PayoutRounds(Pot(c), Get(c.outcomeStakes, p), Get(w.h.burned, (id, p)), Redeemed(w, id, p),
                 Get(w.h.redemptions, (id, p)), held);
    RoundedWithinPot(Pot(c), Get(c.outcomeStakes, p), Get(w.h.burned, (id, p)) + held,
                     Redeemed(w, id, p) + Payout(held, Pot(c), Get(c.outcomeStakes, p)),
                     Get(w.h.redemptions, (id, p)) + 1);
    RedeemedIsAllPaid(w, id, p);
  }

  lemma HeldCoversRedemption(s: Registry, redeemer: Address, id: nat)
    requires id in s.calls && s.calls[id].settled && s.calls[id].hasShares && s.calls[id].outcome > 0
    requires 0 < ShareBalance(s, id, s.calls[id].outcome, redeemer)
    requires 0 < RedemptionPayout(s, redeemer, id) <= Held(s, s.calls[id].stakeToken)
    ensures RedeemShares(s, redeemer, id).Ok? || RedeemShares(s, redeemer, id) == Err(Overflow)
  {
    hide Pot, FitsI128, Payout;
  }
}
