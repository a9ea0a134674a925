/** The three places that hold a stake never disagree, and a call's books close for
    good when staking on it ends. */
module RegistryLedger {
  import opened Basics
  import opened Sums
  import opened RegistryState
  import opened RegistryHistory

  // ---- What a successful transaction looks like ----

  /** No stake can be added to or withdrawn from the call any more. */
  predicate Closed(s: Registry, id: nat)
    requires id in s.calls
  {
    s.now >= s.calls[id].endTs || s.calls[id].settled || s.calls[id].cancelled || s.calls[id].voided
  }

  /** What may still differ between an earlier and a later record of one call:
      flags are only ever raised, and nothing about its terms moves. */
  predicate Later(c: Call, c': Call) {
    && c'.creator == c.creator && c'.stakeToken == c.stakeToken && c'.stakeAmount == c.stakeAmount
    && c'.endTs == c.endTs && c'.outcomeCount == c.outcomeCount && c'.hasShares == c.hasShares
    && (c.settled ==> c'.settled) && (c.voided ==> c'.voided) && (c.cancelled ==> c'.cancelled)
    && (c.outcome != 0 ==> c'.outcome != 0)
  }

  /** A later record of a call whose ledgers have not been written. */
  predicate SameLedgers(c: Call, c': Call) {
    Later(c, c') && c'.outcomeStakes == c.outcomeStakes && c'.stakes == c.stakes
  }

  /** The books are as before and flags have at most been raised. */
  ghost predicate BooksUntouched(s: Registry, s': Registry) {
    && s'.now >= s.now && s'.callCounter == s.callCounter && s'.userStakes == s.userStakes
    && s'.calls.Keys == s.calls.Keys
    && forall id :: id in s.calls ==> SameLedgers(s.calls[id], s'.calls[id])
  }

  lemma CreateShape(s: Registry, creator: Address, token: Address, stakeAmount: int, startPrice: int, endTs: nat,
                    n: nat)
    requires CreateCall(s, creator, token, stakeAmount, startPrice, endTs, n).Ok?
    ensures n >= 2 && stakeAmount > 0
    ensures var s' := CreateCall(s, creator, token, stakeAmount, startPrice, endTs, n).value;
      var c := Call(creator, token, stakeAmount, endTs, n, EmptyOutcomes(n), EmptyStakes(n), 0, 0, false, false, false,
                    s.config.shareTokens);
      s' == s.(callCounter := s.callCounter + 1, calls := s.calls[s.callCounter + 1 := c],
               global := s'.global, creatorStats := s'.creatorStats)
  {
  }

  /** An accepted stake finds an open call and a valid position, credits a positive
      amount, and writes nothing but CreditStake and the token balances. */
  lemma StakeShape(s: Registry, funder: Address, staker: Address, id: nat, amount: int, position: nat, delivered: int,
                   qualifies: bool)
    requires Stake(s, funder, staker, id, amount, position, delivered, qualifies).Ok?
    ensures id in s.calls && !Closed(s, id) && 1 <= position <= s.calls[id].outcomeCount
    ensures var credited := Credited(s.calls[id].stakeToken, amount, delivered);
      var s' := Stake(s, funder, staker, id, amount, position, delivered, qualifies).value;
      && 0 < credited <= amount
      && Deposit(s.balances, s.calls[id].stakeToken, funder, amount, delivered) == Ok(s'.balances)
      && s' == CreditStake(s.(balances := s'.balances), staker, id, position, credited)
      && StakeLimit(s, staker).Some?
      && Get(GetMap(s.calls[id].stakes, position), staker) + amount <= StakeLimit(s, staker).value
  {
  }

  lemma WithdrawShape(s: Registry, staker: Address, id: nat, position: nat)
    requires WithdrawStake(s, staker, id, position).Ok?
    ensures id in s.calls && !Closed(s, id) && 1 <= position <= s.calls[id].outcomeCount
    ensures var stake := UserStake(s, id, staker, position);
      var s' := WithdrawStake(s, staker, id, position).value;
      && 0 < stake
      && Transfer(s.balances, s.calls[id].stakeToken, CONTRACT, staker, stake - Penalty(stake)) == Ok(s'.balances)
      && s' == RemoveStake(s.(balances := s'.balances), staker, id, position, stake - Penalty(stake))
  {
  }

  lemma ResolveShape(s: Registry, caller: Address, id: nat, outcome: nat, endPrice: int)
    requires ResolveCall(s, caller, id, outcome, endPrice).Ok?
    ensures id in s.calls && 1 <= outcome <= s.calls[id].outcomeCount && s.now >= s.calls[id].endTs
    ensures var s' := ResolveCall(s, caller, id, outcome, endPrice).value;
      s' == s.(calls := s.calls[id := s.calls[id].(outcome := outcome, endPrice := endPrice)],
               creatorStats := s'.creatorStats)
  {
  }

  lemma CancelShape(s: Registry, creator: Address, id: nat)
    requires CancelCall(s, creator, id).Ok?
    ensures id in s.calls && s.calls[id].creator == creator
    ensures var s' := CancelCall(s, creator, id).value;
      && s' == s.(calls := s.calls[id := s.calls[id].(cancelled := true)], balances := s'.balances)
      && Transfer(s.balances, s.calls[id].stakeToken, CONTRACT, creator, s.calls[id].stakeAmount) == Ok(s'.balances)
  {
  }

  lemma EmergencyCancelShape(s: Registry, caller: Address, id: nat)
    requires EmergencyCancelCall(s, caller, id).Ok?
    ensures id in s.calls
    ensures var s' := EmergencyCancelCall(s, caller, id).value; var c := s.calls[id];
      && s' == s.(calls := s.calls[id := c.(cancelled := true, voided := true)], balances := s'.balances)
      && Transfer(s.balances, c.stakeToken, CONTRACT, c.creator, c.stakeAmount) == Ok(s'.balances)
  {
  }

  lemma RedeemShape(s: Registry, redeemer: Address, id: nat)
    requires RedeemShares(s, redeemer, id).Ok?
    ensures id in s.calls && s.calls[id].settled && s.calls[id].hasShares && s.calls[id].outcome != 0
    ensures var s' := RedeemShares(s, redeemer, id).value; var c := s.calls[id]; var w := c.outcome;
      && 0 < ShareBalance(s, id, w, redeemer)
      && 0 < RedemptionPayout(s, redeemer, id)
      && s' == s.(shares := s.shares[(id, w) := GetMap(s.shares, (id, w))[redeemer := 0]], balances := s'.balances)
      && Transfer(s.balances, c.stakeToken, CONTRACT, redeemer, RedemptionPayout(s, redeemer, id)) == Ok(s'.balances)
  {
  }

  predicate FlagOp(op: Op) {
    op.OpResolve? || op.OpSettle? || op.OpVoid? || op.OpCancel? || op.OpEmergencyCancel?
  }

  /** Transactions that write neither a call nor a stake. */
  predicate PaymentOp(op: Op) {
    !FlagOp(op) && !op.OpCreate? && !op.OpStake? && !op.OpWithdraw?
  }

  lemma SameButOneCall(s: Registry, s': Registry, id: nat, c': Call)
    requires id in s.calls && SameLedgers(s.calls[id], c')
    requires s' == s.(calls := s.calls[id := c'], balances := s'.balances, creatorStats := s'.creatorStats)
    ensures BooksUntouched(s, s')
  {
  }

  /** A transaction that only raises flags writes one call, and at most pays a creator. */
  lemma FlagOpShape(s: Registry, op: Op)
    requires FlagOp(op) && Execute(s, op).Ok?
    ensures op.call in s.calls
    ensures BooksUntouched(s, Execute(s, op).value)
    ensures var s' := Execute(s, op).value;
      && op.call in s'.calls
      && s' == s.(calls := s.calls[op.call := s'.calls[op.call]], balances := s'.balances,
                  creatorStats := s'.creatorStats)
  {
    var s' := Execute(s, op).value;
    match op
    case OpResolve(caller, id, outcome, endPrice) =>
      ResolveShape(s, caller, id, outcome, endPrice);
      SameButOneCall(s, s', id, s'.calls[id]);
    case OpCancel(creator, id) =>
      CancelShape(s, creator, id);
      SameButOneCall(s, s', id, s'.calls[id]);
    case OpEmergencyCancel(caller, id) =>
      EmergencyCancelShape(s, caller, id);
      SameButOneCall(s, s', id, s'.calls[id]);
    case OpSettle(caller, id) =>
      SameButOneCall(s, s', id, s'.calls[id]);
    case OpVoid(caller, id) =>
      SameButOneCall(s, s', id, s'.calls[id]);
  }

  lemma PaymentOpShape(s: Registry, op: Op)
    requires PaymentOp(op) && Execute(s, op).Ok?
    ensures var s' := Execute(s, op).value;
      && s'.now >= s.now
      && s' == s.(now := s'.now, config := s'.config, balances := s'.balances, shares := s'.shares,
                  voidClaimed := s'.voidClaimed, expiredClaimed := s'.expiredClaimed)
  {
    match op
    case OpRedeem(redeemer, id) => RedeemShape(s, redeemer, id);
    case _ =>
  }

  /** Whatever is not a creation, a stake or a withdrawal leaves the books alone. */
  lemma OtherOpShape(w: World, op: Op)
    requires (FlagOp(op) || PaymentOp(op)) && Execute(w.s, op).Ok?
    ensures BooksUntouched(w.s, Next(w, op).s)
    ensures Next(w, op).h.forfeited == w.h.forfeited && Next(w, op).h.withdrawn == w.h.withdrawn
  {
    if FlagOp(op) {
      FlagOpShape(w.s, op);
    } else {
      PaymentOpShape(w.s, op);
    }
  }

  // ---- Agreement ----

  /** The stake the call record itself shows for a per-user record. */
  function LedgerEntry(calls: map<nat, Call>, k: StakeKey): int {
    if k.call in calls then Get(GetMap(calls[k.call].stakes, k.position), k.user) else 0
  }

  /** Every per-user record equals the entry in the call's staker map. */
  ghost predicate RecordsAgree(calls: map<nat, Call>, records: map<StakeKey, int>) {
    forall k :: Get(records, k) == LedgerEntry(calls, k)
  }

  /** A position's total is its live stakes plus the penalties forfeited there. */
  ghost predicate PositionBalanced(total: int, stakers: map<Address, int>, forfeited: int) {
    && (forall a :: a in stakers ==> stakers[a] >= 0)
    && forfeited >= 0
    && total == Sum(stakers) + forfeited
  }

  ghost predicate CallBalanced(forfeited: map<(nat, nat), int>, id: nat, c: Call) {
    && c.outcomeCount >= 2 && c.stakeAmount > 0
    && forall p: nat :: PositionBalanced(Get(c.outcomeStakes, p), GetMap(c.stakes, p), Get(forfeited, (id, p)))
  }

  ghost predicate CallsBalanced(forfeited: map<(nat, nat), int>, calls: map<nat, Call>) {
    forall id :: id in calls ==> CallBalanced(forfeited, id, calls[id])
  }

  /** The ledgers of the whole contract. */
  ghost predicate Books(w: World) {
    && (forall id :: id in w.s.calls ==> 1 <= id <= w.s.callCounter)
    && CallsBalanced(w.h.forfeited, w.s.calls)
    && RecordsAgree(w.s.calls, w.s.userStakes)
    && (forall key :: key in w.h.forfeited ==> key.0 in w.s.calls)
  }

  lemma CreditBalances(total: int, stakers: map<Address, int>, forfeited: int, user: Address, credited: int)
    requires PositionBalanced(total, stakers, forfeited) && credited >= 0
    ensures PositionBalanced(total + credited, stakers[user := Get(stakers, user) + credited], forfeited)
  {
    SumUpdate(stakers, user, Get(stakers, user) + credited);
  }

  /** Whoever leaves takes all but the penalty, and the penalty stays in the total. */
  lemma RemovalBalances(total: int, stakers: map<Address, int>, forfeited: int, user: Address, penalty: int)
    requires PositionBalanced(total, stakers, forfeited) && penalty >= 0
    ensures PositionBalanced(total - (Get(stakers, user) - penalty), stakers - {user}, forfeited + penalty)
  {
    SumDelete(stakers, user);
  }

  lemma CreateKeepsBooks(w: World, id: nat, c: Call)
    requires Books(w) && id == w.s.callCounter + 1 && c.outcomeCount >= 2 && c.stakeAmount > 0
    requires c.outcomeStakes == EmptyOutcomes(c.outcomeCount) && c.stakes == EmptyStakes(c.outcomeCount)
    ensures CallsBalanced(w.h.forfeited, w.s.calls[id := c])
    ensures RecordsAgree(w.s.calls[id := c], w.s.userStakes)
  {
    assert id !in w.s.calls;
    forall k ensures Get(w.s.userStakes, k) == LedgerEntry(w.s.calls[id := c], k) {
      assert Get(w.s.userStakes, k) == LedgerEntry(w.s.calls, k);
    }
  }

  lemma ReplacedCallBalanced(forfeited: map<(nat, nat), int>, calls: map<nat, Call>, id: nat, c: Call)
    requires CallsBalanced(forfeited, calls) && CallBalanced(forfeited, id, c)
    ensures CallsBalanced(forfeited, calls[id := c])
  {
  }

  /** Writing one staker's entry and the matching record together keeps agreement. */
  lemma RecordWrittenWithEntry(calls: map<nat, Call>, records: map<StakeKey, int>, id: nat, c: Call, p: nat,
                               user: Address, v: int)
    requires RecordsAgree(calls, records) && id in calls
    requires forall q: nat :: q != p ==> GetMap(c.stakes, q) == GetMap(calls[id].stakes, q)
    requires forall a :: Get(GetMap(c.stakes, p), a) == if a == user then v else Get(GetMap(calls[id].stakes, p), a)
    ensures RecordsAgree(calls[id := c], records[StakeKey(id, user, p) := v])
  {
    var records' := records[StakeKey(id, user, p) := v];
    forall k ensures Get(records', k) == LedgerEntry(calls[id := c], k) {
      assert Get(records, k) == LedgerEntry(calls, k);
    }
  }

  lemma CreditedCallBalanced(forfeited: map<(nat, nat), int>, id: nat, c: Call, p: nat, user: Address, credited: int)
    requires CallBalanced(forfeited, id, c) && 1 <= p <= c.outcomeCount && credited >= 0
    ensures CallBalanced(forfeited, id, CreditCall(c, user, p, credited))
  {
    var c' := CreditCall(c, user, p, credited);
    forall q: nat
      ensures PositionBalanced(Get(c'.outcomeStakes, q), GetMap(c'.stakes, q), Get(forfeited, (id, q)))
    {
      assert PositionBalanced(Get(c.outcomeStakes, q), GetMap(c.stakes, q), Get(forfeited, (id, q)));
      CreditBalances(Get(c.outcomeStakes, p), GetMap(c.stakes, p), Get(forfeited, (id, p)), user, credited);
    }
  }

  lemma LeftCallBalanced(forfeited: map<(nat, nat), int>, id: nat, c: Call, p: nat, user: Address, penalty: int)
    requires CallBalanced(forfeited, id, c) && penalty >= 0
    ensures CallBalanced(forfeited[(id, p) := Get(forfeited, (id, p)) + penalty], id,
                         LeaveCall(c, user, p, Get(GetMap(c.stakes, p), user) - penalty))
  {
    var c' := LeaveCall(c, user, p, Get(GetMap(c.stakes, p), user) - penalty);
    var forfeited' := forfeited[(id, p) := Get(forfeited, (id, p)) + penalty];
    forall q: nat
      ensures PositionBalanced(Get(c'.outcomeStakes, q), GetMap(c'.stakes, q), Get(forfeited', (id, q)))
    {
      assert PositionBalanced(Get(c.outcomeStakes, q), GetMap(c.stakes, q), Get(forfeited, (id, q)));
      RemovalBalances(Get(c.outcomeStakes, p), GetMap(c.stakes, p), Get(forfeited, (id, p)), user, penalty);
    }
  }

  /** Other calls do not see a penalty forfeited in one call. */
  lemma OtherCallsBalanced(forfeited: map<(nat, nat), int>, calls: map<nat, Call>, id: nat, c: Call, p: nat,
                           penalty: int)
    requires CallsBalanced(forfeited, calls)
    requires CallBalanced(forfeited[(id, p) := penalty], id, c)
    ensures CallsBalanced(forfeited[(id, p) := penalty], calls[id := c])
  {
    var forfeited' := forfeited[(id, p) := penalty];
    forall j | j in calls && j != id ensures CallBalanced(forfeited', j, calls[j]) {
      assert CallBalanced(forfeited, j, calls[j]);
      forall q: nat ensures Get(forfeited', (j, q)) == Get(forfeited, (j, q)) {}
    }
  }

  lemma CreditKeepsBooks(s: Registry, forfeited: map<(nat, nat), int>, staker: Address, id: nat, p: nat, credited: int)
    requires CallsBalanced(forfeited, s.calls) && RecordsAgree(s.calls, s.userStakes)
    requires id in s.calls && 1 <= p <= s.calls[id].outcomeCount && credited >= 0
    ensures var s' := CreditStake(s, staker, id, p, credited);
      CallsBalanced(forfeited, s'.calls) && RecordsAgree(s'.calls, s'.userStakes)
  {
    var c := s.calls[id];
    CreditedCallBalanced(forfeited, id, c, p, staker, credited);
    ReplacedCallBalanced(forfeited, s.calls, id, CreditCall(c, staker, p, credited));
    RecordWrittenWithEntry(s.calls, s.userStakes, id, CreditCall(c, staker, p, credited), p, staker,
                           Get(GetMap(c.stakes, p), staker) + credited);
  }

  lemma RemovalKeepsBalance(calls: map<nat, Call>, forfeited: map<(nat, nat), int>, user: Address, id: nat, p: nat,
                            penalty: int)
    requires CallsBalanced(forfeited, calls) && id in calls && penalty >= 0
    ensures CallsBalanced(forfeited[(id, p) := Get(forfeited, (id, p)) + penalty],
                          calls[id := LeaveCall(calls[id], user, p, Get(GetMap(calls[id].stakes, p), user) - penalty)])
  {
    hide CallBalanced;
    LeftCallBalanced(forfeited, id, calls[id], p, user, penalty);
    OtherCallsBalanced(forfeited, calls, id,
                       LeaveCall(calls[id], user, p, Get(GetMap(calls[id].stakes, p), user) - penalty), p,
                       Get(forfeited, (id, p)) + penalty);
  }

  lemma RemovalKeepsRecords(s: Registry, user: Address, id: nat, p: nat, refund: int)
    requires RecordsAgree(s.calls, s.userStakes) && id in s.calls
    ensures var s' := RemoveStake(s, user, id, p, refund); RecordsAgree(s'.calls, s'.userStakes)
  {
    RecordWrittenWithEntry(s.calls, s.userStakes, id, LeaveCall(s.calls[id], user, p, refund), p, user, 0);
  }

  lemma UntouchedKeepsBooks(w: World, s': Registry)
    requires Books(w) && BooksUntouched(w.s, s')
    ensures CallsBalanced(w.h.forfeited, s'.calls)
    ensures RecordsAgree(s'.calls, s'.userStakes)
  {
    forall id | id in s'.calls ensures CallBalanced(w.h.forfeited, id, s'.calls[id]) {
      assert CallBalanced(w.h.forfeited, id, w.s.calls[id]);
      assert SameLedgers(w.s.calls[id], s'.calls[id]);
    }
    forall k ensures Get(s'.userStakes, k) == LedgerEntry(s'.calls, k) {
      assert Get(w.s.userStakes, k) == LedgerEntry(w.s.calls, k);
    }
  }

  lemma StakeStepKeepsBooks(w: World, funder: Address, staker: Address, id: nat, amount: int, position: nat,
                            delivered: int, qualifies: bool)
    requires Books(w) && Stake(w.s, funder, staker, id, amount, position, delivered, qualifies).Ok?
    ensures Books(World(Stake(w.s, funder, staker, id, amount, position, delivered, qualifies).value, w.h))
  {
    StakeShape(w.s, funder, staker, id, amount, position, delivered, qualifies);
    var s' := Stake(w.s, funder, staker, id, amount, position, delivered, qualifies).value;
    CreditKeepsBooks(w.s.(balances := s'.balances), w.h.forfeited, staker, id, position,
                     Credited(w.s.calls[id].stakeToken, amount, delivered));
  }

  lemma WithdrawStepKeepsBooks(w: World, staker: Address, id: nat, position: nat)
    requires Books(w) && WithdrawStake(w.s, staker, id, position).Ok?
    ensures Books(World(WithdrawStake(w.s, staker, id, position).value, ExitRecorded(w.s, w.h, staker, id, position)))
  {
    hide CallsBalanced, WithdrawStake, Transfer;
    WithdrawShape(w.s, staker, id, position);
    var stake := UserStake(w.s, id, staker, position);
    assert stake == LedgerEntry(w.s.calls, StakeKey(id, staker, position));
    RemovalKeepsRecords(w.s, staker, id, position, stake - Penalty(stake));
    RemovalKeepsBalance(w.s.calls, w.h.forfeited, staker, id, position, Penalty(stake));
  }

  lemma CreateStepKeepsBooks(w: World, creator: Address, token: Address, stakeAmount: int, startPrice: int, endTs: nat,
                             n: nat)
    requires Books(w) && CreateCall(w.s, creator, token, stakeAmount, startPrice, endTs, n).Ok?
    ensures Books(World(CreateCall(w.s, creator, token, stakeAmount, startPrice, endTs, n).value, w.h))
  {
    CreateShape(w.s, creator, token, stakeAmount, startPrice, endTs, n);
    var s' := CreateCall(w.s, creator, token, stakeAmount, startPrice, endTs, n).value;
    CreateKeepsBooks(w, s'.callCounter, s'.calls[s'.callCounter]);
  }

  lemma UntouchedStepKeepsBooks(w: World, w': World)
    requires Books(w) && BooksUntouched(w.s, w'.s) && w'.h.forfeited == w.h.forfeited
    ensures Books(w')
  {
    UntouchedKeepsBooks(w, w'.s);
  }

  lemma LedgerOpKeepsBooks(w: World, op: Op)
    requires Books(w) && !FlagOp(op) && !PaymentOp(op) && Execute(w.s, op).Ok?
    ensures Books(Next(w, op))
  {
    hide Books, CreateCall, Stake, WithdrawStake;
    match op
    case OpCreate(creator, token, stakeAmount, startPrice, endTs, n) =>
      CreateStepKeepsBooks(w, creator, token, stakeAmount, startPrice, endTs, n);
    case OpStake(funder, staker, id, amount, position, delivered, qualifies) =>
      StakeStepKeepsBooks(w, funder, staker, id, amount, position, delivered, qualifies);
    case OpWithdraw(staker, id, position) =>
      WithdrawStepKeepsBooks(w, staker, id, position);
  }

  lemma StepKeepsBooks(w: World, op: Op)
    requires Books(w)
    ensures Books(Next(w, op))
  {
    hide Books, BooksUntouched;
    if Execute(w.s, op).Ok? {
      if FlagOp(op) || PaymentOp(op) {
        OtherOpShape(w, op);
        UntouchedStepKeepsBooks(w, Next(w, op));
      } else {
        LedgerOpKeepsBooks(w, op);
      }
    }
  }

  /** In every state the contract can reach, the per-user records, the call's staker
      maps and the position totals agree, penalties included. */
  lemma {:induction false} LedgersAgree(w: World, ops: seq<Op>)
    requires Books(w)
    ensures Books(Run(w, ops))
    decreases |ops|
  {
    if ops != [] {
      StepKeepsBooks(w, ops[0]);
      LedgersAgree(Next(w, ops[0]), ops[1..]);
    }
  }

  lemma DeployedBooks(s: Registry)
    requires Fresh(s)
    ensures Books(Deployed(s))
  {
  }

  // ---- Closing ----

  /** The call's totals, staker maps, per-user records and forfeits are the same. */
  ghost predicate SameBooks(w: World, w': World, id: nat)
    requires id in w.s.calls && id in w'.s.calls
  {
    && SameLedgers(w.s.calls[id], w'.s.calls[id])
    && (forall a, p :: UserStake(w'.s, id, a, p) == UserStake(w.s, id, a, p))
    && (forall p :: Get(w'.h.forfeited, (id, p)) == Get(w.h.forfeited, (id, p)))
  }

  ghost predicate Freezes(w: World, w': World, id: nat)
    requires id in w.s.calls
  {
    && id in w'.s.calls && w'.s.now >= w.s.now && Later(w.s.calls[id], w'.s.calls[id])
    && (Closed(w.s, id) ==> Closed(w'.s, id) && SameBooks(w, w', id))
  }

  lemma CreateFreezes(w: World, creator: Address, token: Address, stakeAmount: int, startPrice: int, endTs: nat,
                      n: nat, id: nat)
    requires id in w.s.calls && id <= w.s.callCounter
    requires CreateCall(w.s, creator, token, stakeAmount, startPrice, endTs, n).Ok?
    ensures Freezes(w, World(CreateCall(w.s, creator, token, stakeAmount, startPrice, endTs, n).value, w.h), id)
  {
    CreateShape(w.s, creator, token, stakeAmount, startPrice, endTs, n);
  }

  lemma StakeFreezes(w: World, funder: Address, staker: Address, call: nat, amount: int, position: nat,
                     delivered: int, qualifies: bool, id: nat)
    requires id in w.s.calls && Stake(w.s, funder, staker, call, amount, position, delivered, qualifies).Ok?
    ensures Freezes(w, World(Stake(w.s, funder, staker, call, amount, position, delivered, qualifies).value, w.h), id)
  {
    StakeShape(w.s, funder, staker, call, amount, position, delivered, qualifies);
  }

  lemma WithdrawFreezes(w: World, staker: Address, call: nat, position: nat, id: nat)
    requires id in w.s.calls && WithdrawStake(w.s, staker, call, position).Ok?
    ensures Freezes(w, World(WithdrawStake(w.s, staker, call, position).value,
                             ExitRecorded(w.s, w.h, staker, call, position)), id)
  {
    WithdrawShape(w.s, staker, call, position);
  }

  lemma UntouchedFreezes(w: World, w': World, id: nat)
    requires id in w.s.calls && BooksUntouched(w.s, w'.s) && w'.h.forfeited == w.h.forfeited
    ensures Freezes(w, w', id)
  {
    assert SameLedgers(w.s.calls[id], w'.s.calls[id]);
  }

  lemma LedgerOpFreezes(w: World, op: Op, id: nat)
    requires id in w.s.calls && id <= w.s.callCounter
    requires !FlagOp(op) && !PaymentOp(op) && Execute(w.s, op).Ok?
    ensures Freezes(w, Next(w, op), id)
  {
    hide Freezes, CreateCall, Stake, WithdrawStake;
    match op
    case OpCreate(creator, token, stakeAmount, startPrice, endTs, n) =>
      CreateFreezes(w, creator, token, stakeAmount, startPrice, endTs, n, id);
    case OpStake(funder, staker, call, amount, position, delivered, qualifies) =>
      StakeFreezes(w, funder, staker, call, amount, position, delivered, qualifies, id);
    case OpWithdraw(staker, call, position) =>
      WithdrawFreezes(w, staker, call, position, id);
  }

  lemma StepFreezes(w: World, op: Op, id: nat)
    requires id in w.s.calls && id <= w.s.callCounter
    ensures Freezes(w, Next(w, op), id)
  {
    if Execute(w.s, op).Ok? {
      if FlagOp(op) || PaymentOp(op) {
        OtherOpShape(w, op);
        UntouchedFreezes(w, Next(w, op), id);
      } else {
        LedgerOpFreezes(w, op, id);
      }
    }
  }

  /** Once a call has ended, or is settled, cancelled or voided, its ledgers never
      change again; flags are never cleared, whatever happens. */
  lemma {:induction false} ClosedCallsStayFrozen(w: World, ops: seq<Op>, id: nat)
    requires Books(w) && id in w.s.calls
    ensures var w' := Run(w, ops);
      && id in w'.s.calls && w'.s.now >= w.s.now && Later(w.s.calls[id], w'.s.calls[id])
      && (Closed(w.s, id) ==> Closed(w'.s, id) && SameBooks(w, w', id))
    decreases |ops|
  {
    if ops != [] {
      StepFreezes(w, ops[0], id);
      StepKeepsBooks(w, ops[0]);
      ClosedCallsStayFrozen(Next(w, ops[0]), ops[1..], id);
    }
  }
}
