/** Who may do what, and when: the conditions under which a transaction is accepted, and that
    every flag a call ever shows was raised by somebody entitled to raise it. */
module RegistryAccess {
  import opened Basics
  import opened Reputation
  import opened RegistryState
  import opened RegistryHistory
  import opened RegistryLedger

  /** The caller may do this at all. */
  predicate Entitled(s: Registry, op: Op) {
    match op
    case OpResolve(caller, _, _, _) => caller == s.config.outcomeManager
    case OpSettle(caller, _) => caller == s.config.outcomeManager
    case OpRelease(caller, _, _, _) => caller == s.config.outcomeManager
    case OpVoid(caller, _) => caller == s.config.admin
    case OpCancel(creator, id) => id in s.calls ==> creator == s.calls[id].creator
    case OpEmergencyCancel(caller, id) =>
      id in s.calls ==>
        var c := s.calls[id];
        caller == s.config.admin || (caller == c.creator && Pot(c) <= 0 && s.now > c.endTs + 604_800)
    case _ => true
  }

  predicate Live(c: Call) {
    !c.settled && !c.cancelled && !c.voided
  }

  /** The call is in the right phase, and the arguments are within the settings. */
  predicate InPhase(s: Registry, op: Op) {
    match op
    case OpCreate(_, token, stakeAmount, startPrice, endTs, n) =>
      && !s.config.paused && stakeAmount > 0 && stakeAmount >= s.config.minStake && startPrice > 0 && n >= 2
      && s.now < endTs <= s.now + s.config.maxDuration && (token == NATIVE_XLM || token in s.config.whitelist)
    case OpStake(_, staker, id, amount, position, _, qualifies) =>
      && !s.config.paused && amount > 0 && amount >= s.config.minStake && id in s.calls && qualifies
      && var c := s.calls[id];
         && s.now < c.endTs && Live(c) && 1 <= position <= c.outcomeCount
         && (0 < s.config.stakingCutoff < c.endTs ==> s.now + s.config.stakingCutoff < c.endTs)
         && (StakeLimit(s, staker).Some? ==>
               Get(GetMap(c.stakes, position), staker) + amount <= StakeLimit(s, staker).value)
    case OpWithdraw(staker, id, position) =>
      && !s.config.paused && id in s.calls && s.now < s.calls[id].endTs && Live(s.calls[id])
      && 1 <= position <= s.calls[id].outcomeCount && UserStake(s, id, staker, position) > 0
    case OpResolve(_, id, outcome, _) =>
      && !s.config.paused && id in s.calls && 1 <= outcome <= s.calls[id].outcomeCount
      && s.now >= s.calls[id].endTs && !s.calls[id].voided
    case OpSettle(_, id) => id in s.calls && !s.calls[id].settled
    case OpVoid(_, id) => id in s.calls && !s.calls[id].voided && !s.calls[id].settled
    case OpVoidRefund(staker, id) =>
      && id in s.calls && s.calls[id].voided && (id, staker) !in s.voidClaimed
      && UserStake(s, id, staker, 1) + UserStake(s, id, staker, 2) > 0
    case OpExpiredRefund(staker, id) =>
      && id in s.calls && s.now > s.calls[id].endTs + s.config.gracePeriod
      && !s.calls[id].settled && !s.calls[id].voided && (id, staker) !in s.expiredClaimed
      && UserStakeUpTo(s, id, staker, s.calls[id].outcomeCount) > 0
    case OpCancel(_, id) => id in s.calls && !s.calls[id].settled && !s.calls[id].cancelled && Pot(s.calls[id]) <= 0
    case OpEmergencyCancel(_, id) => id in s.calls && Live(s.calls[id])
    case OpRedeem(redeemer, id) =>
      && id in s.calls && s.calls[id].outcome > 0 && s.calls[id].settled && s.calls[id].hasShares
      && ShareBalance(s, id, s.calls[id].outcome, redeemer) > 0 && RedemptionPayout(s, redeemer, id) > 0
    case OpTransferShares(from, _, id, outcome, amount) =>
      && id in s.calls && 1 <= outcome <= s.calls[id].outcomeCount && s.calls[id].hasShares
      && 0 <= amount <= ShareBalance(s, id, outcome, from)
    case OpRelease(_, id, _, _) => id in s.calls
    case OpWithdrawFees(_, amount) => amount > 0
    case _ => true
  }

  /** What may still stop a transaction: a number out of range, or the tokens themselves. */
  predicate Material(e: Error) {
    e == Overflow || e == InsufficientFunds || e == InvalidTransfer || e == InvalidStakeAmount
  }

  lemma EntryAccepted(s: Registry, op: Op)
    requires op.OpCreate? || op.OpWithdraw? || op.OpResolve? || op.OpSettle? || op.OpVoid?
    ensures Execute(s, op).Ok? ==> Entitled(s, op) && InPhase(s, op)
    ensures Entitled(s, op) && InPhase(s, op) ==> Execute(s, op).Ok? || Material(Execute(s, op).error)
  {
    hide EmptyOutcomes, EmptyStakes, EffectiveLimit, CreatorWinningStake, LeaveCall, Penalty, UserStake;
  }

  lemma StakeAccepted(s: Registry, op: Op)
    requires op.OpStake?
    ensures Execute(s, op).Ok? ==> Entitled(s, op) && InPhase(s, op)
    ensures Entitled(s, op) && InPhase(s, op) ==> Execute(s, op).Ok? || Material(Execute(s, op).error)
  {
    hide StakeLimit, CreditStake, FitsI128, CreditFits;
  }

  lemma PayoutAccepted(s: Registry, op: Op)
    requires op.OpVoidRefund? || op.OpExpiredRefund? || op.OpCancel? || op.OpEmergencyCancel? || op.OpRedeem?
    ensures Execute(s, op).Ok? ==> Entitled(s, op) && InPhase(s, op)
    ensures Entitled(s, op) && InPhase(s, op) ==> Execute(s, op).Ok? || Material(Execute(s, op).error)
  {
    hide FitsI128, UserStakeUpTo, Pot, Payout, UserStake, SetBalance, BalanceOf;
  }

  lemma OtherAccepted(s: Registry, op: Op)
    requires op.OpTransferShares? || op.OpRelease? || op.OpWithdrawFees? || op.OpConfigure? || op.OpClock?
             || op.OpTokenActivity?
    ensures Execute(s, op).Ok? ==> Entitled(s, op) && InPhase(s, op)
    ensures Entitled(s, op) && InPhase(s, op) ==> Execute(s, op).Ok? || Material(Execute(s, op).error)
  {
    hide FitsI128, SetBalance, BalanceOf;
  }

  /** Both ways, for every transaction: it is accepted only for callers entitled to it, in the
      right phase and within the settings; and then nothing but a number out of range or a
      lack of tokens can stop it. */
  lemma AcceptedIffEntitled(s: Registry, op: Op)
    ensures Execute(s, op).Ok? ==> Entitled(s, op) && InPhase(s, op)
    ensures Entitled(s, op) && InPhase(s, op) ==> Execute(s, op).Ok? || Material(Execute(s, op).error)
  {
    hide Execute, Entitled, InPhase;
    if op.OpStake? {
      StakeAccepted(s, op);
    } else if op.OpCreate? || op.OpWithdraw? || op.OpResolve? || op.OpSettle? || op.OpVoid? {
      EntryAccepted(s, op);
    } else if op.OpVoidRefund? || op.OpExpiredRefund? || op.OpCancel? || op.OpEmergencyCancel? || op.OpRedeem? {
      PayoutAccepted(s, op);
    } else {
      OtherAccepted(s, op);
    }
  }

  // ---- What a refusal says ----

  /** The call that a transaction is about. */
  function CallOf(s: Registry, op: Op): Option<Call> {
    if (op.OpStake? || op.OpWithdraw? || op.OpResolve? || op.OpSettle? || op.OpVoid? || op.OpVoidRefund?
        || op.OpExpiredRefund? || op.OpCancel? || op.OpEmergencyCancel? || op.OpRedeem? || op.OpTransferShares?
        || op.OpRelease?) && op.call in s.calls
    then Some(s.calls[op.call]) else None
  }

  /** What must be the case for a refusal with this error. */
  predicate Reason(s: Registry, op: Op, e: Error) {
    var c := CallOf(s, op);
    match e
    case Paused => s.config.paused
    case Unauthorized => !Entitled(s, op)
    case CallNotFound => c.None?
    case CallEnded => c.Some? && s.now >= c.value.endTs
    case CallNotEnded => c.Some? && s.now < c.value.endTs
    case CallSettled => c.Some? && c.value.settled
    case CallVoided => c.Some? && c.value.voided
    case CallCancelled => c.Some? && (c.value.cancelled || c.value.voided)
    case NotVoided => c.Some? && !c.value.voided
    case NotResolved => c.Some? && c.value.outcome == 0
    case NotSettled => c.Some? && !c.value.settled
    case NoShareTokens => c.Some? && !c.value.hasShares
    case NotInitialized => c.Some? && !c.value.hasShares
    case StakingCutoffActive =>
      c.Some? && s.now + s.config.stakingCutoff >= c.value.endTs > s.config.stakingCutoff > 0
    case DelayNotElapsed =>
      c.Some? && s.now <= c.value.endTs + if op.OpExpiredRefund? then s.config.gracePeriod else 604_800
    case ActiveStakes => c.Some? && Pot(c.value) > 0
    case BelowMinimum => op.OpStake? && op.amount < s.config.minStake
    case GateNotMet => op.OpStake? && !op.qualifies
    case InvalidStakeAmount =>
      || (op.OpStake? && (op.amount <= 0 || op.delivered <= 0))
      || (op.OpCreate? && (op.stakeAmount <= 0 || op.stakeAmount < s.config.minStake || op.startPrice <= 0))
      || (op.OpWithdrawFees? && op.amount <= 0)
    case InvalidEndTime => op.OpCreate? && op.endTs <= s.now
    case TooLong => op.OpCreate? && op.endTs > s.now + s.config.maxDuration
    case InvalidOutcomeCount => op.OpCreate? && op.outcomeCount < 2
    case NotWhitelisted => op.OpCreate? && op.token != NATIVE_XLM && op.token !in s.config.whitelist
    case InvalidOutcome => op.OpResolve? && c.Some? && !(1 <= op.outcome <= c.value.outcomeCount)
    case InvalidPosition =>
      && c.Some?
      && (((op.OpStake? || op.OpWithdraw?) && !(1 <= op.position <= c.value.outcomeCount))
          || (op.OpTransferShares? && !(1 <= op.outcome <= c.value.outcomeCount)))
    case AlreadyClaimed =>
      || (op.OpVoidRefund? && (op.call, op.staker) in s.voidClaimed)
      || (op.OpExpiredRefund? && (op.call, op.staker) in s.expiredClaimed)
    case NoStake =>
      || (op.OpWithdraw? && UserStake(s, op.call, op.staker, op.position) <= 0)
      || (op.OpVoidRefund? && UserStake(s, op.call, op.staker, 1) + UserStake(s, op.call, op.staker, 2) <= 0)
      || (op.OpExpiredRefund? && c.Some? && UserStakeUpTo(s, op.call, op.staker, c.value.outcomeCount) <= 0)
    case NoShares => op.OpRedeem? && c.Some? && ShareBalance(s, op.call, c.value.outcome, op.redeemer) <= 0
    case ZeroPayout => op.OpRedeem? && c.Some? && RedemptionPayout(s, op.redeemer, op.call) <= 0
    case LimitExceeded =>
      && op.OpStake? && c.Some? && StakeLimit(s, op.staker).Some?
      && Get(GetMap(c.value.stakes, op.position), op.staker) + op.amount > StakeLimit(s, op.staker).value
    case Overflow => true
    case InsufficientFunds =>
      && (op.OpStake? && c.Some? ==> BalanceOf(s.balances, c.value.stakeToken, op.funder) < op.amount)
      && (op.OpTransferShares? ==> ShareBalance(s, op.call, op.outcome, op.from) < op.amount)
    case InvalidTransfer => true
  }

  lemma CreationRefused(s: Registry, op: Op)
    requires op.OpCreate? && Execute(s, op).Err?
    ensures Reason(s, op, Execute(s, op).error)
  {
    hide EmptyOutcomes, EmptyStakes;
  }

  lemma ExitRefused(s: Registry, op: Op)
    requires op.OpWithdraw? && Execute(s, op).Err?
    ensures Reason(s, op, Execute(s, op).error)
  {
    hide LeaveCall, Penalty, UserStake, SetBalance, BalanceOf, FitsI128;
  }

  lemma FlagRefused(s: Registry, op: Op)
    requires (op.OpResolve? || op.OpSettle? || op.OpVoid?) && Execute(s, op).Err?
    ensures Reason(s, op, Execute(s, op).error)
  {
    hide EffectiveLimit, CreatorWinningStake;
  }

  lemma StakeRefused(s: Registry, op: Op)
    requires op.OpStake? && Execute(s, op).Err?
    ensures Reason(s, op, Execute(s, op).error)
  {
    hide StakeLimit, CreditStake, FitsI128, CreditFits, SetBalance, BalanceOf;
  }

  lemma RefundRefused(s: Registry, op: Op)
    requires (op.OpVoidRefund? || op.OpExpiredRefund?) && Execute(s, op).Err?
    ensures Reason(s, op, Execute(s, op).error)
  {
    hide FitsI128, UserStakeUpTo, UserStake, SetBalance, BalanceOf;
  }

  lemma CancelRefused(s: Registry, op: Op)
    requires (op.OpCancel? || op.OpEmergencyCancel?) && Execute(s, op).Err?
    ensures Reason(s, op, Execute(s, op).error)
  {
    hide FitsI128, Pot, SetBalance, BalanceOf;
  }

  lemma RedemptionRefused(s: Registry, op: Op)
    requires op.OpRedeem? && Execute(s, op).Err?
    ensures Reason(s, op, Execute(s, op).error)
  {
    hide FitsI128, Pot, Payout, SetBalance, BalanceOf;
  }

  lemma OtherRefused(s: Registry, op: Op)
    requires op.OpTransferShares? || op.OpRelease? || op.OpWithdrawFees? || op.OpConfigure? || op.OpClock?
             || op.OpTokenActivity?
    requires Execute(s, op).Err?
    ensures Reason(s, op, Execute(s, op).error)
  {
    hide FitsI128, SetBalance, BalanceOf, ShareBalance;
  }

  /** Every refusal tells the truth: what its error says is the case. */
  lemma RefusalsTellTheReason(s: Registry, op: Op)
    requires Execute(s, op).Err?
    ensures Reason(s, op, Execute(s, op).error)
  {
    hide Execute, Reason;
    match op
    case OpCreate(_, _, _, _, _, _) => CreationRefused(s, op);
    case OpStake(_, _, _, _, _, _, _) => StakeRefused(s, op);
    case OpWithdraw(_, _, _) => ExitRefused(s, op);
    case OpResolve(_, _, _, _) => FlagRefused(s, op);
    case OpSettle(_, _) => FlagRefused(s, op);
    case OpVoid(_, _) => FlagRefused(s, op);
    case OpVoidRefund(_, _) => RefundRefused(s, op);
    case OpExpiredRefund(_, _) => RefundRefused(s, op);
    case OpCancel(_, _) => CancelRefused(s, op);
    case OpEmergencyCancel(_, _) => CancelRefused(s, op);
    case OpRedeem(_, _) => RedemptionRefused(s, op);
    case _ => OtherRefused(s, op);
  }

  // ---- Where flags come from ----

  datatype Flag = Settled | Voided | Cancelled | Announced(outcome: nat)

  /** The call shows the flag; an outcome is shown while it is the one announced last. */
  predicate Shows(s: Registry, id: nat, flag: Flag) {
    && id in s.calls
    && match flag
       case Settled => s.calls[id].settled
       case Voided => s.calls[id].voided
       case Cancelled => s.calls[id].cancelled
       case Announced(outcome) => outcome > 0 && s.calls[id].outcome == outcome
  }

  /** A transaction that raises the flag, by somebody entitled to it in that state. */
  predicate Raises(s: Registry, op: Op, id: nat, flag: Flag) {
    && id in s.calls && Execute(s, op).Ok?
    && match flag
       case Settled => op == OpSettle(s.config.outcomeManager, id)
       case Voided =>
         || op == OpVoid(s.config.admin, id)
         || (op.OpEmergencyCancel? && op.call == id && op.caller in {s.config.admin, s.calls[id].creator})
       case Cancelled =>
         || op == OpCancel(s.calls[id].creator, id)
         || (op.OpEmergencyCancel? && op.call == id && op.caller in {s.config.admin, s.calls[id].creator})
       case Announced(outcome) =>
         && op.OpResolve? && op.call == id && op.outcome == outcome && op.caller == s.config.outcomeManager
         && s.now >= s.calls[id].endTs
  }

  lemma FlagOpRaises(w: World, op: Op, id: nat, flag: Flag)
    requires FlagOp(op) && Execute(w.s, op).Ok? && !Shows(w.s, id, flag) && Shows(Next(w, op).s, id, flag)
    ensures Raises(w.s, op, id, flag)
  {
    hide ResolveCall, CancelCall, EmergencyCancelCall, Pot;
    AcceptedIffEntitled(w.s, op);
    match op
    case OpResolve(caller, call, outcome, endPrice) => ResolveShape(w.s, caller, call, outcome, endPrice);
    case OpCancel(creator, call) => CancelShape(w.s, creator, call);
    case OpEmergencyCancel(caller, call) => EmergencyCancelShape(w.s, caller, call);
    case _ =>
  }

  /** Transactions other than those five raise no flag. */
  lemma OthersRaiseNothing(w: World, op: Op, id: nat, flag: Flag)
    requires !FlagOp(op) && Shows(Next(w, op).s, id, flag)
    ensures Shows(w.s, id, flag)
  {
    hide Execute, Minted, StakeLimit;
    if Execute(w.s, op).Ok? {
      if op.OpCreate? {
        CreateRaisesNothing(w.s, op, id, flag);
      } else if op.OpStake? {
        StakeRaisesNothing(w.s, op, id, flag);
      } else if op.OpWithdraw? {
        ExitRaisesNothing(w.s, op, id, flag);
      } else {
        PaymentOpShape(w.s, op);
      }
    }
  }

  lemma CreateRaisesNothing(s: Registry, op: Op, id: nat, flag: Flag)
    requires op.OpCreate? && Execute(s, op).Ok? && Shows(Execute(s, op).value, id, flag)
    ensures Shows(s, id, flag)
  {
    hide CreateCall, EmptyOutcomes, EmptyStakes;
    CreateShape(s, op.creator, op.token, op.stakeAmount, op.startPrice, op.endTs, op.outcomeCount);
  }

  lemma StakeRaisesNothing(s: Registry, op: Op, id: nat, flag: Flag)
    requires op.OpStake? && Execute(s, op).Ok? && Shows(Execute(s, op).value, id, flag)
    ensures Shows(s, id, flag)
  {
    hide Stake, Minted, Counted, StakeLimit;
    StakeShape(s, op.funder, op.staker, op.call, op.amount, op.position, op.delivered, op.qualifies);
  }

  lemma ExitRaisesNothing(s: Registry, op: Op, id: nat, flag: Flag)
    requires op.OpWithdraw? && Execute(s, op).Ok? && Shows(Execute(s, op).value, id, flag)
    ensures Shows(s, id, flag)
  {
    hide WithdrawStake, Penalty;
    WithdrawShape(s, op.staker, op.call, op.position);
  }

  lemma {:induction false} FlagsHaveOrigins(w: World, ops: seq<Op>, id: nat, flag: Flag) returns (i: nat)
    requires !Shows(w.s, id, flag) && Shows(Run(w, ops).s, id, flag)
    ensures i < |ops| && Raises(Run(w, ops[..i]).s, ops[i], id, flag)
    decreases |ops|
  {
    hide Next, Shows, Raises;
    if Shows(Next(w, ops[0]).s, id, flag) {
      i := 0;
      assert Run(w, ops[..0]) == w;
      FirstRaises(w, ops[0], id, flag);
    } else {
      var j := FlagsHaveOrigins(Next(w, ops[0]), ops[1..], id, flag);
      i := j + 1;
      assert ops[..i][1..] == ops[1..][..j] && ops[..i][0] == ops[0];
    }
  }

  lemma FirstRaises(w: World, op: Op, id: nat, flag: Flag)
    requires !Shows(w.s, id, flag) && Shows(Next(w, op).s, id, flag)
    ensures Raises(w.s, op, id, flag)
  {
    hide Shows, Raises, Execute;
    if FlagOp(op) && Execute(w.s, op).Ok? {
      FlagOpRaises(w, op, id, flag);
    } else if !FlagOp(op) {
      OthersRaiseNothing(w, op, id, flag);
    }
  }

  /** From deployment: whatever call shows as settled, voided or cancelled, and whatever
      outcome it announces, was put there in the run by a successful transaction of the
      outcome manager, the admin or the creator who was entitled to it at that moment. */
  lemma FlagsHaveOriginsFromDeployment(s: Registry, ops: seq<Op>, id: nat, flag: Flag) returns (i: nat)
    requires Fresh(s) && Shows(Run(Deployed(s), ops).s, id, flag)
    ensures i < |ops| && Raises(Run(Deployed(s), ops[..i]).s, ops[i], id, flag)
  {
    hide Run, Raises;
    i := FlagsHaveOrigins(Deployed(s), ops, id, flag);
  }

  /** What the five transactions that write flags change of a call: these fields and no
      other, of this call and no other. */
  lemma FlagsAlone(s: Registry, op: Op, id: nat)
    requires FlagOp(op) && Execute(s, op).Ok? && id in s.calls
    ensures id in Execute(s, op).value.calls
    ensures var c, c' := s.calls[id], Execute(s, op).value.calls[id];
      c' == if op.call != id then c
            else match op
                 case OpResolve(_, _, outcome, endPrice) => c.(outcome := outcome, endPrice := endPrice)
                 case OpSettle(_, _) => c.(settled := true)
                 case OpVoid(_, _) => c.(voided := true)
                 case OpCancel(_, _) => c.(cancelled := true)
                 case _ => c.(cancelled := true, voided := true)
  {
    hide ResolveCall, CancelCall, EmergencyCancelCall, Pot;
    match op
    case OpResolve(caller, call, outcome, endPrice) => ResolveShape(s, caller, call, outcome, endPrice);
    case OpCancel(creator, call) => CancelShape(s, creator, call);
    case OpEmergencyCancel(caller, call) => EmergencyCancelShape(s, caller, call);
    case _ =>
  }
}
