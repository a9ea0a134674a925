/** Refunds of voided and expired calls: each staker is paid once, exactly the stake
    on record, and together never more than the pot of the call. */
module RegistryRefunds {
  import opened Basics
  import opened Sums
  import opened RegistryState
  import opened RegistryHistory
  import opened RegistryLedger

  /** A claim flag is set exactly for the stakers a refund is on record for. */
  ghost predicate FlagsMatch(claimed: set<(nat, Address)>, refunds: map<nat, map<Address, int>>) {
    forall id: nat, a :: (id, a) in claimed <==> a in GetMap(refunds, id)
  }

  ghost predicate VoidRefundOwed(s: Registry, id: nat, a: Address, refund: int) {
    id in s.calls && s.calls[id].voided && refund == UserStakeUpTo(s, id, a, 2) > 0
  }

  ghost predicate ExpiredRefundOwed(s: Registry, id: nat, a: Address, refund: int) {
    && id in s.calls && s.now >= s.calls[id].endTs
    && refund == UserStakeUpTo(s, id, a, s.calls[id].outcomeCount) > 0
  }

  ghost predicate VoidRefundsExact(s: Registry, refunds: map<nat, map<Address, int>>) {
    forall id, a :: a in GetMap(refunds, id) ==> VoidRefundOwed(s, id, a, GetMap(refunds, id)[a])
  }

  ghost predicate ExpiredRefundsExact(s: Registry, refunds: map<nat, map<Address, int>>) {
    forall id, a :: a in GetMap(refunds, id) ==> ExpiredRefundOwed(s, id, a, GetMap(refunds, id)[a])
  }

  /** Every refund paid so far is what the staker's records still show. */
  ghost predicate Claims(w: World) {
    && FlagsMatch(w.s.voidClaimed, w.h.voidRefunds)
    && FlagsMatch(w.s.expiredClaimed, w.h.expiredRefunds)
    && VoidRefundsExact(w.s, w.h.voidRefunds)
    && ExpiredRefundsExact(w.s, w.h.expiredRefunds)
  }

  lemma {:induction false} SameRecordsSameTotal(s: Registry, s': Registry, id: nat, a: Address, n: nat)
    requires forall p: nat :: UserStake(s', id, a, p) == UserStake(s, id, a, p)
    ensures UserStakeUpTo(s', id, a, n) == UserStakeUpTo(s, id, a, n)
  {
    if n != 0 {
      SameRecordsSameTotal(s, s', id, a, n - 1);
    }
  }

  /** Refunds of closed calls stay exact, since the records they were taken from are frozen. */
  lemma FrozenRefundsStayExact(w: World, w': World)
    requires VoidRefundsExact(w.s, w.h.voidRefunds) && ExpiredRefundsExact(w.s, w.h.expiredRefunds)
    requires forall id :: id in w.s.calls ==> Freezes(w, w', id)
    ensures VoidRefundsExact(w'.s, w.h.voidRefunds) && ExpiredRefundsExact(w'.s, w.h.expiredRefunds)
  {
    forall id, a | a in GetMap(w.h.voidRefunds, id)
      ensures VoidRefundOwed(w'.s, id, a, GetMap(w.h.voidRefunds, id)[a])
    {
      assert VoidRefundOwed(w.s, id, a, GetMap(w.h.voidRefunds, id)[a]);
      assert Freezes(w, w', id);
      SameRecordsSameTotal(w.s, w'.s, id, a, 2);
    }
    forall id, a | a in GetMap(w.h.expiredRefunds, id)
      ensures ExpiredRefundOwed(w'.s, id, a, GetMap(w.h.expiredRefunds, id)[a])
    {
      assert ExpiredRefundOwed(w.s, id, a, GetMap(w.h.expiredRefunds, id)[a]);
      assert Freezes(w, w', id);
      SameRecordsSameTotal(w.s, w'.s, id, a, w.s.calls[id].outcomeCount);
    }
  }

  lemma VoidRefundShape(s: Registry, staker: Address, id: nat)
    requires ClaimVoidRefund(s, staker, id).Ok?
    ensures id in s.calls && s.calls[id].voided && (id, staker) !in s.voidClaimed
    ensures var s' := ClaimVoidRefund(s, staker, id).value; var refund := UserStakeUpTo(s, id, staker, 2);
      && refund > 0
      && s' == s.(voidClaimed := s.voidClaimed + {(id, staker)}, balances := s'.balances)
      && Transfer(s.balances, s.calls[id].stakeToken, CONTRACT, staker, refund) == Ok(s'.balances)
  {
    assert UserStakeUpTo(s, id, staker, 2) == UserStakeUpTo(s, id, staker, 1) + UserStake(s, id, staker, 2);
    assert UserStakeUpTo(s, id, staker, 1) == UserStakeUpTo(s, id, staker, 0) + UserStake(s, id, staker, 1);
  }

  lemma ExpiredRefundShape(s: Registry, staker: Address, id: nat)
    requires ClaimExpiredRefund(s, staker, id).Ok?
    ensures id in s.calls && s.now >= s.calls[id].endTs && (id, staker) !in s.expiredClaimed
    ensures var s' := ClaimExpiredRefund(s, staker, id).value;
      var refund := UserStakeUpTo(s, id, staker, s.calls[id].outcomeCount);
      && refund > 0
      && s' == s.(expiredClaimed := s.expiredClaimed + {(id, staker)}, balances := s'.balances)
      && Transfer(s.balances, s.calls[id].stakeToken, CONTRACT, staker, refund) == Ok(s'.balances)
  {
  }

  lemma SameUserStakes(s: Registry, s': Registry, id: nat, a: Address, n: nat)
    requires s'.userStakes == s.userStakes
    ensures UserStakeUpTo(s', id, a, n) == UserStakeUpTo(s, id, a, n)
  {
    SameRecordsSameTotal(s, s', id, a, n);
  }

  /** Adding one refund together with its flag. */
  lemma FlagAdded(claimed: set<(nat, Address)>, refunds: map<nat, map<Address, int>>, id: nat, a: Address, refund: int)
    requires FlagsMatch(claimed, refunds)
    ensures FlagsMatch(claimed + {(id, a)}, refunds[id := GetMap(refunds, id)[a := refund]])
  {
  }

  lemma VoidRefundKeepsClaims(w: World, staker: Address, id: nat)
    requires Claims(w) && ClaimVoidRefund(w.s, staker, id).Ok?
    ensures Claims(World(ClaimVoidRefund(w.s, staker, id).value, VoidRefundRecorded(w.s, w.h, staker, id)))
  {
    VoidRefundShape(w.s, staker, id);
    var s', h' := ClaimVoidRefund(w.s, staker, id).value, VoidRefundRecorded(w.s, w.h, staker, id);
    FlagAdded(w.s.voidClaimed, w.h.voidRefunds, id, staker, UserStakeUpTo(w.s, id, staker, 2));
    forall j, a | a in GetMap(h'.voidRefunds, j) ensures VoidRefundOwed(s', j, a, GetMap(h'.voidRefunds, j)[a]) {
      if !(j == id && a == staker) {
        assert VoidRefundOwed(w.s, j, a, GetMap(w.h.voidRefunds, j)[a]);
      }
      SameUserStakes(w.s, s', j, a, 2);
    }
    forall j, a | a in GetMap(h'.expiredRefunds, j)
      ensures ExpiredRefundOwed(s', j, a, GetMap(h'.expiredRefunds, j)[a])
    {
      assert ExpiredRefundOwed(w.s, j, a, GetMap(w.h.expiredRefunds, j)[a]);
      SameUserStakes(w.s, s', j, a, w.s.calls[j].outcomeCount);
    }
  }

  lemma ExpiredRefundKeepsClaims(w: World, staker: Address, id: nat)
    requires Claims(w) && ClaimExpiredRefund(w.s, staker, id).Ok?
    ensures id in w.s.calls
    ensures Claims(World(ClaimExpiredRefund(w.s, staker, id).value, ExpiredRefundRecorded(w.s, w.h, staker, id)))
  {
    ExpiredRefundShape(w.s, staker, id);
    var s', h' := ClaimExpiredRefund(w.s, staker, id).value, ExpiredRefundRecorded(w.s, w.h, staker, id);
    FlagAdded(w.s.expiredClaimed, w.h.expiredRefunds, id, staker,
              UserStakeUpTo(w.s, id, staker, w.s.calls[id].outcomeCount));
    forall j, a | a in GetMap(h'.voidRefunds, j) ensures VoidRefundOwed(s', j, a, GetMap(h'.voidRefunds, j)[a]) {
      assert VoidRefundOwed(w.s, j, a, GetMap(w.h.voidRefunds, j)[a]);
      SameUserStakes(w.s, s', j, a, 2);
    }
    forall j, a | a in GetMap(h'.expiredRefunds, j)
      ensures ExpiredRefundOwed(s', j, a, GetMap(h'.expiredRefunds, j)[a])
    {
      if !(j == id && a == staker) {
        assert ExpiredRefundOwed(w.s, j, a, GetMap(w.h.expiredRefunds, j)[a]);
      }
      SameUserStakes(w.s, s', j, a, w.s.calls[j].outcomeCount);
    }
  }

  ghost predicate SameClaims(w: World, w': World) {
    && w'.s.voidClaimed == w.s.voidClaimed && w'.s.expiredClaimed == w.s.expiredClaimed
    && w'.h.voidRefunds == w.h.voidRefunds && w'.h.expiredRefunds == w.h.expiredRefunds
  }

  lemma LedgerOpsKeepClaims(w: World, op: Op)
    requires !FlagOp(op) && !PaymentOp(op) && Execute(w.s, op).Ok?
    ensures SameClaims(w, Next(w, op))
  {
    match op
    case OpCreate(creator, token, stakeAmount, startPrice, endTs, n) =>
      CreateShape(w.s, creator, token, stakeAmount, startPrice, endTs, n);
    case OpStake(funder, staker, id, amount, position, delivered, qualifies) =>
      StakeShape(w.s, funder, staker, id, amount, position, delivered, qualifies);
    case OpWithdraw(staker, id, position) =>
      WithdrawShape(w.s, staker, id, position);
  }

  lemma PaymentsKeepClaims(w: World, op: Op)
    requires PaymentOp(op) && !op.OpVoidRefund? && !op.OpExpiredRefund? && Execute(w.s, op).Ok?
    ensures SameClaims(w, Next(w, op))
  {
    if op.OpRedeem? {
      RedeemShape(w.s, op.redeemer, op.call);
    }
  }

  /** Transactions other than refund claims touch neither flags nor refunds. */
  lemma OtherOpsKeepClaims(w: World, op: Op)
    requires !op.OpVoidRefund? && !op.OpExpiredRefund?
    ensures SameClaims(w, Next(w, op))
  {
    hide Execute;
    if Execute(w.s, op).Ok? {
      if FlagOp(op) {
        FlagOpShape(w.s, op);
      } else if PaymentOp(op) {
        PaymentsKeepClaims(w, op);
      } else {
        LedgerOpsKeepClaims(w, op);
      }
    }
  }

  lemma StepKeepsClaims(w: World, op: Op)
    requires Books(w) && Claims(w)
    ensures Claims(Next(w, op))
  {
    if op.OpVoidRefund? {
      if Execute(w.s, op).Ok? { VoidRefundKeepsClaims(w, op.staker, op.call); }
    } else if op.OpExpiredRefund? {
      if Execute(w.s, op).Ok? { ExpiredRefundKeepsClaims(w, op.staker, op.call); }
    } else {
      OtherOpsKeepClaims(w, op);
      forall id | id in w.s.calls ensures Freezes(w, Next(w, op), id) {
        StepFreezes(w, op, id);
      }
      FrozenRefundsStayExact(w, Next(w, op));
    }
  }

  /** In every reachable state each refund paid equals the staker's stake on record,
      and a claim flag is set exactly for the stakers who were paid. */
  lemma {:induction false} RefundsStayExact(w: World, ops: seq<Op>)
    requires Books(w) && Claims(w)
    ensures Claims(Run(w, ops))
    decreases |ops|
  {
    if ops != [] {
      StepKeepsBooks(w, ops[0]);
      StepKeepsClaims(w, ops[0]);
      RefundsStayExact(Next(w, ops[0]), ops[1..]);
    }
  }

  // ---- Within the pot ----

  /** One user's stake over positions 1 to n, from the call's own maps. */
  function EntriesUpTo(stakes: map<nat, map<Address, int>>, a: Address, n: nat): int {
    if n == 0 then 0 else EntriesUpTo(stakes, a, n - 1) + Get(GetMap(stakes, n), a)
  }

  /** A book in which everyone has at most their stake on positions 1 to n adds up to
      at most the totals of those positions. */
  lemma {:induction false} WithinPositions(m: map<Address, int>, c: Call, n: nat)
    requires forall p: nat :: (forall a :: a in GetMap(c.stakes, p) ==> GetMap(c.stakes, p)[a] >= 0)
    requires forall p: nat :: Sum(GetMap(c.stakes, p)) <= Get(c.outcomeStakes, p)
    requires forall a :: a in m ==> m[a] <= EntriesUpTo(c.stakes, a, n)
    ensures Sum(m) <= PotUpTo(c.outcomeStakes, n)
  {
    if n == 0 {
      SumMonotone(m, map[]);
    } else {
      var last := map a | a in m :: Get(GetMap(c.stakes, n), a);
      var rest := map a | a in m :: m[a] - last[a];
      SumAdd(m, last, rest);
      SumMonotone(last, GetMap(c.stakes, n));
      WithinPositions(rest, c, n - 1);
    }
  }

  lemma {:induction false} RecordsAreEntries(s: Registry, id: nat, a: Address, n: nat)
    requires RecordsAgree(s.calls, s.userStakes) && id in s.calls
    ensures UserStakeUpTo(s, id, a, n) == EntriesUpTo(s.calls[id].stakes, a, n)
  {
    if n != 0 {
      RecordsAreEntries(s, id, a, n - 1);
      assert Get(s.userStakes, StakeKey(id, a, n)) == LedgerEntry(s.calls, StakeKey(id, a, n));
    }
  }

  lemma {:induction false} PotGrows(c: Call, m: nat, n: nat)
    requires m <= n
    requires forall p: nat :: Get(c.outcomeStakes, p) >= 0
    ensures PotUpTo(c.outcomeStakes, m) <= PotUpTo(c.outcomeStakes, n)
    decreases n
  {
    if m < n {
      PotGrows(c, m, n - 1);
    }
  }

  /** A balanced call's staker maps fit under its totals. */
  lemma BalancedTotals(forfeited: map<(nat, nat), int>, id: nat, c: Call)
    requires CallBalanced(forfeited, id, c)
    ensures forall p: nat :: (forall a :: a in GetMap(c.stakes, p) ==> GetMap(c.stakes, p)[a] >= 0)
    ensures forall p: nat :: 0 <= Sum(GetMap(c.stakes, p)) <= Get(c.outcomeStakes, p)
  {
    forall p: nat
      ensures (forall a :: a in GetMap(c.stakes, p) ==> GetMap(c.stakes, p)[a] >= 0)
      ensures 0 <= Sum(GetMap(c.stakes, p)) <= Get(c.outcomeStakes, p)
    {
      assert PositionBalanced(Get(c.outcomeStakes, p), GetMap(c.stakes, p), Get(forfeited, (id, p)));
      SumNonNegative(GetMap(c.stakes, p));
    }
  }

  /** Paying everybody on a list at most their stake on the first n positions costs at most
      the pot. */
  lemma ListWithinPot(w: World, id: nat, m: map<Address, int>, n: nat)
    requires Books(w) && id in w.s.calls && n <= w.s.calls[id].outcomeCount
    requires forall a :: a in m ==> m[a] <= UserStakeUpTo(w.s, id, a, n)
    ensures Sum(m) <= Pot(w.s.calls[id])
  {
    var c := w.s.calls[id];
    BalancedTotals(w.h.forfeited, id, c);
    forall a | a in m ensures m[a] <= EntriesUpTo(c.stakes, a, n) {
      RecordsAreEntries(w.s, id, a, n);
    }
    WithinPositions(m, c, n);
    PotGrows(c, n, c.outcomeCount);
  }

  /** Void refunds of a call never add up to more than its pot, nor do expiry refunds. */
  lemma RefundsWithinPot(w: World, id: nat)
    requires Books(w) && Claims(w) && id in w.s.calls
    ensures Sum(GetMap(w.h.voidRefunds, id)) <= Pot(w.s.calls[id])
    ensures Sum(GetMap(w.h.expiredRefunds, id)) <= Pot(w.s.calls[id])
  {
    var voids, expired := GetMap(w.h.voidRefunds, id), GetMap(w.h.expiredRefunds, id);
    assert CallBalanced(w.h.forfeited, id, w.s.calls[id]);
    forall a | a in voids ensures voids[a] == UserStakeUpTo(w.s, id, a, 2) {
      assert VoidRefundOwed(w.s, id, a, voids[a]);
    }
    forall a | a in expired ensures expired[a] == UserStakeUpTo(w.s, id, a, w.s.calls[id].outcomeCount) {
      assert ExpiredRefundOwed(w.s, id, a, expired[a]);
    }
    ListWithinPot(w, id, voids, 2);
    ListWithinPot(w, id, expired, w.s.calls[id].outcomeCount);
  }

  lemma {:induction false} FlagsAreKept(w: World, ops: seq<Op>, id: nat)
    requires Books(w) && id in w.s.calls
    ensures w.s.voidClaimed <= Run(w, ops).s.voidClaimed
    ensures id in Run(w, ops).s.calls && (w.s.calls[id].voided ==> Run(w, ops).s.calls[id].voided)
    decreases |ops|
  {
    if ops != [] {
      var op := ops[0];
      if op.OpVoidRefund? {
        if Execute(w.s, op).Ok? { VoidRefundShape(w.s, op.staker, op.call); }
      } else if op.OpExpiredRefund? {
        if Execute(w.s, op).Ok? { ExpiredRefundShape(w.s, op.staker, op.call); }
      } else {
        OtherOpsKeepClaims(w, op);
      }
      StepFreezes(w, op, id);
      StepKeepsBooks(w, op);
      FlagsAreKept(Next(w, op), ops[1..], id);
    }
  }

  /** After one void refund, the same staker is refused for that call for ever. */
  lemma RefundedAtMostOnce(w: World, staker: Address, id: nat, ops: seq<Op>)
    requires Books(w) && ClaimVoidRefund(w.s, staker, id).Ok?
    ensures ClaimVoidRefund(Run(Next(w, OpVoidRefund(staker, id)), ops).s, staker, id) == Err(AlreadyClaimed)
  {
    hide Books, Transfer;
    var w' := Next(w, OpVoidRefund(staker, id));
    assert w'.s == ClaimVoidRefund(w.s, staker, id).value;
    VoidRefundShape(w.s, staker, id);
    StepKeepsBooks(w, OpVoidRefund(staker, id));
    FlagsAreKept(w', ops, id);
  }

  // ---- Where refunds differ from what the pot holds ----

  lemma {:induction false} MorePositionsSameTotal(s: Registry, id: nat, a: Address, m: nat, n: nat)
    requires m <= n && forall p: nat :: UserStake(s, id, a, p) >= 0
    ensures UserStakeUpTo(s, id, a, m) <= UserStakeUpTo(s, id, a, n)
    ensures UserStakeUpTo(s, id, a, m) == UserStakeUpTo(s, id, a, n)
            <==> forall p: nat :: m < p <= n ==> UserStake(s, id, a, p) == 0
  {
    hide UserStake;
    if m < n {
      MorePositionsSameTotal(s, id, a, m, n - 1);
    }
  }

  /** A void refund pays a staker everything on record exactly when the staker has nothing
      on the positions above 2, which it does not look at; who has all of it there is
      refused. */
  lemma VoidRefundIsFullIff(w: World, staker: Address, id: nat)
    requires Books(w) && id in w.s.calls
    ensures var total := UserStakeUpTo(w.s, id, staker, w.s.calls[id].outcomeCount);
      && (UserStakeUpTo(w.s, id, staker, 2) == total
          <==> forall p: nat :: 2 < p <= w.s.calls[id].outcomeCount ==> UserStake(w.s, id, staker, p) == 0)
      && (w.s.calls[id].voided && (id, staker) !in w.s.voidClaimed && UserStakeUpTo(w.s, id, staker, 2) == 0
          ==> ClaimVoidRefund(w.s, staker, id) == Err(NoStake))
      && (ClaimVoidRefund(w.s, staker, id).Ok? && staker != CONTRACT
          ==> (TokensOf(ClaimVoidRefund(w.s, staker, id).value, id, staker) == TokensOf(w.s, id, staker) + total
               <==> forall p: nat :: 2 < p <= w.s.calls[id].outcomeCount ==> UserStake(w.s, id, staker, p) == 0))
  {
    hide UserStake, FitsI128, UserStakeUpTo;
    if ClaimVoidRefund(w.s, staker, id).Ok? && staker != CONTRACT {
      VoidRefundArrives(w.s, staker, id);
    }
    forall p: nat ensures UserStake(w.s, id, staker, p) >= 0 {
      RecordIsEntry(w, staker, id, p);
    }
    assert w.s.calls[id].outcomeCount >= 2 by { assert CallBalanced(w.h.forfeited, id, w.s.calls[id]); }
    MorePositionsSameTotal(w.s, id, staker, 2, w.s.calls[id].outcomeCount);
    UnfoldsToTwo(w.s, id, staker);
    assert FitsI128(0) by { ZeroFits(); }
  }

  /** What an account holds in the token of a call. */
  function TokensOf(s: Registry, id: nat, account: Address): int {
    if id in s.calls then BalanceOf(s.balances, s.calls[id].stakeToken, account) else 0
  }

  lemma VoidRefundArrives(s: Registry, staker: Address, id: nat)
    requires ClaimVoidRefund(s, staker, id).Ok? && staker != CONTRACT
    ensures TokensOf(ClaimVoidRefund(s, staker, id).value, id, staker)
            == TokensOf(s, id, staker) + UserStakeUpTo(s, id, staker, 2)
  {
    hide FitsI128, UserStakeUpTo;
    VoidRefundShape(s, staker, id);
  }

  lemma ZeroFits()
    ensures FitsI128(0)
  {
  }

  lemma RecordIsEntry(w: World, staker: Address, id: nat, p: nat)
    requires Books(w) && id in w.s.calls
    ensures UserStake(w.s, id, staker, p) == Get(GetMap(w.s.calls[id].stakes, p), staker) >= 0
  {
    assert CallBalanced(w.h.forfeited, id, w.s.calls[id]);
  }

  // ---- Who has been refunded how much ----

  /** Everything refunded to a staker for a call. */
  function RefundedTo(h: History, id: nat, a: Address): int {
    Get(GetMap(h.voidRefunds, id), a) + Get(GetMap(h.expiredRefunds, id), a)
  }

  /** In every reachable state a staker has been refunded at most the stake on record
      exactly if the flags for the two kinds of refund are not both set. */
  lemma RefundedWithinStakeIff(w: World, a: Address, id: nat)
    requires Books(w) && Claims(w) && id in w.s.calls
    ensures RefundedTo(w.h, id, a) <= UserStakeUpTo(w.s, id, a, w.s.calls[id].outcomeCount)
            <==> !((id, a) in w.s.voidClaimed && (id, a) in w.s.expiredClaimed)
  {
    hide UserStake, UserStakeUpTo;
    var n, voids, expired := w.s.calls[id].outcomeCount, GetMap(w.h.voidRefunds, id), GetMap(w.h.expiredRefunds, id);
    forall p: nat ensures UserStake(w.s, id, a, p) >= 0 {
      RecordIsEntry(w, a, id, p);
    }
    assert n >= 2 by { assert CallBalanced(w.h.forfeited, id, w.s.calls[id]); }
    MorePositionsSameTotal(w.s, id, a, 2, n);
    MorePositionsSameTotal(w.s, id, a, 0, n);
    assert UserStakeUpTo(w.s, id, a, 0) == 0 by { NoPositions(w.s, id, a); }
    assert (id, a) in w.s.voidClaimed <==> a in voids;
    assert (id, a) in w.s.expiredClaimed <==> a in expired;
    if a in voids {
      assert VoidRefundOwed(w.s, id, a, voids[a]);
    }
    if a in expired {
      assert ExpiredRefundOwed(w.s, id, a, expired[a]);
    }
  }

  lemma NoPositions(s: Registry, id: nat, a: Address)
    ensures UserStakeUpTo(s, id, a, 0) == 0
  {
  }

  /** The guard that the void refund lacks: paying one keeps the staker's refunds within the
      stake on record exactly when no expiry refund was paid to the same staker. */
  lemma VoidRefundWithinStakeIff(w: World, staker: Address, id: nat)
    requires Books(w) && Claims(w) && ClaimVoidRefund(w.s, staker, id).Ok?
    ensures RefundedTo(Next(w, OpVoidRefund(staker, id)).h, id, staker)
            <= UserStakeUpTo(w.s, id, staker, w.s.calls[id].outcomeCount)
            <==> (id, staker) !in w.s.expiredClaimed
  {
    hide Books, Claims, ClaimVoidRefund, RefundedTo;
    var w' := Next(w, OpVoidRefund(staker, id));
    VoidRefundShape(w.s, staker, id);
    StepKeepsBooks(w, OpVoidRefund(staker, id));
    StepKeepsClaims(w, OpVoidRefund(staker, id));
    SameUserStakes(w.s, w'.s, id, staker, w.s.calls[id].outcomeCount);
    RefundedWithinStakeIff(w', staker, id);
  }

  lemma UnfoldsToTwo(s: Registry, id: nat, staker: Address)
    ensures UserStakeUpTo(s, id, staker, 2) == UserStake(s, id, staker, 1) + UserStake(s, id, staker, 2)
  {
    assert UserStakeUpTo(s, id, staker, 1) == UserStakeUpTo(s, id, staker, 0) + UserStake(s, id, staker, 1);
  }
}
