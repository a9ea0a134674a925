/** Winning shares are worth the pot: every payout is rounded down, no sequence of
    redemptions and share transfers pays out more than the pot, and what rounding
    leaves behind is less than one unit a redemption. */
module RegistryRedemption {
  import opened Arithmetic
  import opened Basics
  import opened Sums
  import opened RegistryState
  import opened RegistryHistory
  import opened RegistryLedger
  import opened RegistryRefunds

  // ---- One payout ----

  /** Whatever has been paid falls short of the exact value of the burned shares by
      less than one unit a redemption. */
  ghost predicate Rounded(pot: int, winning: int, burned: int, paid: int, count: int) {
    count == 0 || 0 <= pot * burned - paid * winning < count * winning
  }

  lemma PayoutRounds(pot: int, winning: int, burned: int, paid: int, count: int, shares: int)
    requires winning > 0 && count >= 0 && (count == 0 ==> burned == 0 && paid == 0)
    requires Rounded(pot, winning, burned, paid, count)
    ensures Rounded(pot, winning, burned + shares, paid + Payout(shares, pot, winning), count + 1)
  {
    var payout := Payout(shares, pot, winning);
    DivBounds(shares * pot, winning);
    assert pot * (burned + shares) == pot * burned + shares * pot;
    assert (paid + payout) * winning == paid * winning + payout * winning;
    assert (count + 1) * winning == count * winning + winning;
  }

  /** A winning share never pays less than the unit it was minted for. */
  lemma PayoutCoversShares(shares: int, pot: int, winning: int)
    requires 0 < winning <= pot && shares >= 0
    ensures Payout(shares, pot, winning) >= shares
  {
    MulMonotone(winning, pot, shares);
    DivAtLeast(shares * pot, winning, shares);
  }

  /** One redemption stays within the pot exactly when the redeemer holds no more
      shares than there is stake on the winning position. */
  lemma PayoutWithinPot(shares: int, pot: int, winning: int)
    requires 0 < winning <= pot && shares >= 0
    ensures Payout(shares, pot, winning) <= pot <==> shares <= winning
  {
    DivAtLeast(shares * pot, winning, pot + 1);
    assert (pot + 1) * winning == pot * winning + winning;
    if shares <= winning {
      MulMonotone(shares, winning, pot);
    } else {
      MulMonotone(winning + 1, shares, pot);
      assert (winning + 1) * pot == winning * pot + pot;
    }
  }

  /** Burning no more shares than there is winning stake pays out at most the pot, and
      burning all of it leaves less than one unit a redemption. */
  lemma RoundedWithinPot(pot: int, winning: int, burned: int, paid: int, count: int)
    requires winning > 0 && 0 <= burned <= winning && pot >= 0 && count > 0
    requires Rounded(pot, winning, burned, paid, count)
    ensures paid <= pot
    ensures burned == winning ==> pot - paid < count
  {
    MulMonotone(burned, winning, pot);
    assert (pot - paid) * winning == pot * winning - paid * winning;
    if paid > pot {
      MulMonotone(pot - paid, -1, winning);
    }
    if pot - paid >= count {
      MulMonotone(count, pot - paid, winning);
    }
  }

  // ---- The share books ----

  /** Shares in circulation and burned account for the position's stake and for the
      stake that early exits have taken out of it. */
  ghost predicate ShareBook(c: Call, p: nat, withdrawn: int, shares: map<Address, int>, burned: int, paid: int,
                            count: int)
  {
    && (forall a :: a in shares ==> shares[a] >= 0)
    && withdrawn >= 0 && burned >= 0 && paid >= 0 && count >= 0
    && (c.hasShares ==> Sum(shares) + burned == Get(c.outcomeStakes, p) + withdrawn)
    && (count == 0 ==> burned == 0 && paid == 0)
    && (count > 0 ==> c.settled && c.hasShares && Get(c.outcomeStakes, p) > 0)
    && Rounded(Pot(c), Get(c.outcomeStakes, p), burned, paid, count)
  }

  ghost predicate ShareBookAt(w: World, id: nat, p: nat)
    requires id in w.s.calls
  {
    ShareBook(w.s.calls[id], p, Get(w.h.withdrawn, (id, p)), GetMap(w.s.shares, (id, p)), Get(w.h.burned, (id, p)),
              Get(GetMap(w.h.redeemed, id), p), Get(w.h.redemptions, (id, p)))
  }

  /** Nothing is on record for a call that does not exist yet. */
  ghost predicate NoShareBook(w: World, id: nat, p: nat) {
    && Get(w.h.withdrawn, (id, p)) == 0 && GetMap(w.s.shares, (id, p)) == map[] && Get(w.h.burned, (id, p)) == 0
    && Get(GetMap(w.h.redeemed, id), p) == 0 && Get(w.h.redemptions, (id, p)) == 0
  }

  ghost predicate ShareBooks(w: World) {
    && (forall id, p: nat :: id in w.s.calls ==> ShareBookAt(w, id, p))
    && (forall id: nat, p: nat :: id !in w.s.calls ==> NoShareBook(w, id, p))
    && (forall id :: id in w.s.calls ==> w.s.calls[id].outcome <= w.s.calls[id].outcomeCount)
  }

  /** Only flags of calls and nothing about shares has changed. */
  ghost predicate SharesUntouched(w: World, w': World) {
    && BooksUntouched(w.s, w'.s)
    && w'.s.shares == w.s.shares && w'.h.withdrawn == w.h.withdrawn && w'.h.burned == w.h.burned
    && w'.h.redeemed == w.h.redeemed && w'.h.redemptions == w.h.redemptions
    && forall id :: id in w.s.calls ==> w'.s.calls[id].outcome <= w.s.calls[id].outcomeCount
  }

  lemma UntouchedKeepsShareBooks(w: World, w': World)
    requires ShareBooks(w) && SharesUntouched(w, w')
    ensures ShareBooks(w')
  {
    forall id, p: nat | id in w'.s.calls ensures ShareBookAt(w', id, p) {
      assert SameLedgers(w.s.calls[id], w'.s.calls[id]) && ShareBookAt(w, id, p);
    }
    forall id: nat, p: nat | id !in w'.s.calls ensures NoShareBook(w', id, p) {
      assert NoShareBook(w, id, p);
    }
    forall id | id in w'.s.calls ensures w'.s.calls[id].outcome <= w'.s.calls[id].outcomeCount {
      assert SameLedgers(w.s.calls[id], w'.s.calls[id]);
    }
  }

  lemma {:induction false} EmptyPot(n: nat, k: nat)
    requires k <= n
    ensures PotUpTo(EmptyOutcomes(n), k) == 0
  {
    if k != 0 {
      EmptyPot(n, k - 1);
    }
  }

  lemma CreateKeepsShareBooks(w: World, creator: Address, token: Address, stakeAmount: int, startPrice: int,
                              endTs: nat, n: nat)
    requires Books(w) && ShareBooks(w) && CreateCall(w.s, creator, token, stakeAmount, startPrice, endTs, n).Ok?
    ensures ShareBooks(World(CreateCall(w.s, creator, token, stakeAmount, startPrice, endTs, n).value, w.h))
  {
    CreateShape(w.s, creator, token, stakeAmount, startPrice, endTs, n);
    var w' := World(CreateCall(w.s, creator, token, stakeAmount, startPrice, endTs, n).value, w.h);
    var created := w.s.callCounter + 1;
    assert created !in w.s.calls;
    forall id, p: nat | id in w'.s.calls ensures ShareBookAt(w', id, p) {
      if id == created {
        assert NoShareBook(w, id, p);
      } else {
        assert ShareBookAt(w, id, p);
      }
    }
    forall id: nat, p: nat | id !in w'.s.calls ensures NoShareBook(w', id, p) {
      assert NoShareBook(w, id, p);
    }
  }

  /** An open call has had no redemption on any position. */
  lemma OpenCallUnredeemed(w: World, id: nat, p: nat)
    requires ShareBooks(w) && id in w.s.calls && !w.s.calls[id].settled
    ensures Get(w.h.redemptions, (id, p)) == 0 && Get(w.h.burned, (id, p)) == 0
    ensures Get(GetMap(w.h.redeemed, id), p) == 0
  {
    assert ShareBookAt(w, id, p);
  }

  /** Minting exactly what is credited keeps circulation and stake together. */
  lemma CreditedBook(c: Call, p: nat, withdrawn: int, shares: map<Address, int>, user: Address, credited: int)
    requires ShareBook(c, p, withdrawn, shares, 0, 0, 0) && credited >= 0
    ensures ShareBook(CreditCall(c, user, p, credited), p, withdrawn,
                      if c.hasShares then shares[user := Get(shares, user) + credited] else shares, 0, 0, 0)
  {
    SumUpdate(shares, user, Get(shares, user) + credited);
  }

  /** An early exit burns no shares; what it takes out stays on record. */
  lemma LeftBook(c: Call, p: nat, withdrawn: int, shares: map<Address, int>, user: Address, refund: int)
    requires ShareBook(c, p, withdrawn, shares, 0, 0, 0) && refund >= 0
    ensures ShareBook(LeaveCall(c, user, p, refund), p, withdrawn + refund, shares, 0, 0, 0)
  {
  }

  lemma TransferredBook(c: Call, p: nat, withdrawn: int, shares: map<Address, int>, burned: int, paid: int, count: int,
                        from: Address, to: Address, amount: int)
    requires ShareBook(c, p, withdrawn, shares, burned, paid, count) && 0 <= amount <= Get(shares, from)
    ensures var debited := shares[from := Get(shares, from) - amount];
      ShareBook(c, p, withdrawn, debited[to := Get(debited, to) + amount], burned, paid, count)
  {
    var debited := shares[from := Get(shares, from) - amount];
    SumUpdate(shares, from, Get(shares, from) - amount);
    SumUpdate(debited, to, Get(debited, to) + amount);
  }

  lemma RedeemedBook(c: Call, p: nat, withdrawn: int, shares: map<Address, int>, burned: int, paid: int, count: int,
                     user: Address)
    requires ShareBook(c, p, withdrawn, shares, burned, paid, count) && c.settled && c.hasShares
    requires 0 < Get(c.outcomeStakes, p) && 0 < Payout(Get(shares, user), Pot(c), Get(c.outcomeStakes, p))
    requires 0 < Get(shares, user)
    ensures ShareBook(c, p, withdrawn, shares[user := 0], burned + Get(shares, user),
                      paid + Payout(Get(shares, user), Pot(c), Get(c.outcomeStakes, p)), count + 1)
  {
    SumUpdate(shares, user, 0);
    PayoutRounds(Pot(c), Get(c.outcomeStakes, p), burned, paid, count, Get(shares, user));
  }

  /** All records but those of one call and position are the same. */
  ghost predicate OthersUnchanged(w: World, w': World, id: nat, p: nat) {
    forall j: nat, q: nat :: (j, q) != (id, p) ==>
      && Get(w'.h.withdrawn, (j, q)) == Get(w.h.withdrawn, (j, q))
      && GetMap(w'.s.shares, (j, q)) == GetMap(w.s.shares, (j, q))
      && Get(w'.h.burned, (j, q)) == Get(w.h.burned, (j, q))
      && Get(GetMap(w'.h.redeemed, j), q) == Get(GetMap(w.h.redeemed, j), q)
      && Get(w'.h.redemptions, (j, q)) == Get(w.h.redemptions, (j, q))
  }

  lemma OneBookChanged(w: World, w': World, id: nat, p: nat)
    requires ShareBooks(w) && id in w.s.calls && id in w'.s.calls && OthersUnchanged(w, w', id, p)
    requires w'.s.calls == w.s.calls[id := w'.s.calls[id]]
    requires w'.s.calls[id].outcome <= w'.s.calls[id].outcomeCount
    requires ShareBookAt(w', id, p)
    requires forall q: nat :: q != p ==> ShareBookAt(w', id, q)
    ensures ShareBooks(w')
  {
    forall j, q: nat | j in w'.s.calls ensures ShareBookAt(w', j, q) {
      if j != id {
        assert ShareBookAt(w, j, q) && (j, q) != (id, p);
      }
    }
    forall j: nat, q: nat | j !in w'.s.calls ensures NoShareBook(w', j, q) {
      assert NoShareBook(w, j, q) && (j, q) != (id, p);
    }
  }

  lemma CreditAt(w: World, staker: Address, id: nat, p: nat, credited: int, q: nat)
    requires id in w.s.calls && ShareBookAt(w, id, q) && !w.s.calls[id].settled && credited >= 0
    ensures ShareBookAt(World(CreditStake(w.s, staker, id, p, credited), w.h), id, q)
  {
    hide Counted;
    if q == p {
      CreditedBook(w.s.calls[id], p, Get(w.h.withdrawn, (id, p)), GetMap(w.s.shares, (id, p)), staker, credited);
    }
  }

  lemma CreditKeepsShareBooks(s: Registry, h: History, staker: Address, id: nat, p: nat, credited: int)
    requires ShareBooks(World(s, h)) && id in s.calls && !s.calls[id].settled && credited >= 0
    ensures ShareBooks(World(CreditStake(s, staker, id, p, credited), h))
  {
    hide ShareBookAt, NoShareBook, Counted;
    var w, w' := World(s, h), World(CreditStake(s, staker, id, p, credited), h);
    forall q: nat ensures ShareBookAt(w', id, q) {
      assert ShareBookAt(w, id, q);
      CreditAt(w, staker, id, p, credited, q);
    }
    OneBookChanged(w, w', id, p);
  }

  lemma SameSharesKeepBooks(w: World, s': Registry)
    requires ShareBooks(w) && s'.calls == w.s.calls && s'.shares == w.s.shares
    ensures ShareBooks(World(s', w.h))
  {
    var w' := World(s', w.h);
    forall id, p: nat | id in w'.s.calls ensures ShareBookAt(w', id, p) {
      assert ShareBookAt(w, id, p);
    }
    forall id: nat, p: nat | id !in w'.s.calls ensures NoShareBook(w', id, p) {
      assert NoShareBook(w, id, p);
    }
  }

  lemma StakeKeepsShareBooks(w: World, funder: Address, staker: Address, id: nat, amount: int, position: nat,
                             delivered: int, qualifies: bool)
    requires ShareBooks(w) && Stake(w.s, funder, staker, id, amount, position, delivered, qualifies).Ok?
    ensures ShareBooks(World(Stake(w.s, funder, staker, id, amount, position, delivered, qualifies).value, w.h))
  {
    StakeShape(w.s, funder, staker, id, amount, position, delivered, qualifies);
    var s' := Stake(w.s, funder, staker, id, amount, position, delivered, qualifies).value;
    var paid := w.s.(balances := s'.balances);
    SameSharesKeepBooks(w, paid);
    CreditKeepsShareBooks(paid, w.h, staker, id, position, Credited(w.s.calls[id].stakeToken, amount, delivered));
  }

  lemma ExitAt(w: World, staker: Address, id: nat, position: nat, q: nat)
    requires id in w.s.calls && ShareBookAt(w, id, q) && WithdrawStake(w.s, staker, id, position).Ok?
    ensures var s' := WithdrawStake(w.s, staker, id, position).value;
      id in s'.calls && ShareBookAt(World(s', ExitRecorded(w.s, w.h, staker, id, position)), id, q)
  {
    WithdrawShape(w.s, staker, id, position);
    var stake := UserStake(w.s, id, staker, position);
    if q == position {
      LeftBook(w.s.calls[id], q, Get(w.h.withdrawn, (id, q)), GetMap(w.s.shares, (id, q)), staker,
               stake - Penalty(stake));
    }
  }

  lemma ExitKeepsShareBooks(w: World, staker: Address, id: nat, position: nat)
    requires ShareBooks(w) && WithdrawStake(w.s, staker, id, position).Ok?
    ensures ShareBooks(World(WithdrawStake(w.s, staker, id, position).value,
                             ExitRecorded(w.s, w.h, staker, id, position)))
  {
    WithdrawShape(w.s, staker, id, position);
    var w' := World(WithdrawStake(w.s, staker, id, position).value, ExitRecorded(w.s, w.h, staker, id, position));
    forall q: nat ensures ShareBookAt(w', id, q) {
      OpenCallUnredeemed(w, id, q);
      assert ShareBookAt(w, id, q);
      ExitAt(w, staker, id, position, q);
    }
    OneBookChanged(w, w', id, position);
  }

  lemma TransferAt(w: World, from: Address, to: Address, id: nat, outcome: nat, amount: int, q: nat)
    requires id in w.s.calls && ShareBookAt(w, id, q) && TransferShares(w.s, from, to, id, outcome, amount).Ok?
    ensures ShareBookAt(World(TransferShares(w.s, from, to, id, outcome, amount).value, w.h), id, q)
  {
    if q == outcome {
      TransferredBook(w.s.calls[id], q, Get(w.h.withdrawn, (id, q)), GetMap(w.s.shares, (id, q)),
                      Get(w.h.burned, (id, q)), Get(GetMap(w.h.redeemed, id), q),
                      Get(w.h.redemptions, (id, q)), from, to, amount);
    }
  }

  lemma TransferKeepsShareBooks(w: World, from: Address, to: Address, id: nat, outcome: nat, amount: int)
    requires ShareBooks(w) && TransferShares(w.s, from, to, id, outcome, amount).Ok?
    ensures ShareBooks(World(TransferShares(w.s, from, to, id, outcome, amount).value, w.h))
  {
    var w' := World(TransferShares(w.s, from, to, id, outcome, amount).value, w.h);
    forall q: nat ensures ShareBookAt(w', id, q) {
      assert ShareBookAt(w, id, q);
      TransferAt(w, from, to, id, outcome, amount, q);
    }
    OneBookChanged(w, w', id, outcome);
  }

  lemma RedemptionAt(w: World, redeemer: Address, id: nat, q: nat)
    requires id in w.s.calls && ShareBookAt(w, id, q) && RedeemShares(w.s, redeemer, id).Ok?
    ensures var s' := RedeemShares(w.s, redeemer, id).value;
      id in s'.calls && ShareBookAt(World(s', RedemptionRecorded(w.s, w.h, redeemer, id)), id, q)
  {
    hide RedeemShares, ShareBook, Pot;
    RedeemShape(w.s, redeemer, id);
    if q == w.s.calls[id].outcome {
      RedeemedBook(w.s.calls[id], q, Get(w.h.withdrawn, (id, q)), GetMap(w.s.shares, (id, q)),
                   Get(w.h.burned, (id, q)), Get(GetMap(w.h.redeemed, id), q), Get(w.h.redemptions, (id, q)), redeemer);
    }
  }

  lemma RedemptionKeepsShareBooks(w: World, redeemer: Address, id: nat)
    requires ShareBooks(w) && RedeemShares(w.s, redeemer, id).Ok?
    ensures id in w.s.calls
    ensures ShareBooks(World(RedeemShares(w.s, redeemer, id).value, RedemptionRecorded(w.s, w.h, redeemer, id)))
  {
    RedeemShape(w.s, redeemer, id);
    var w' := World(RedeemShares(w.s, redeemer, id).value, RedemptionRecorded(w.s, w.h, redeemer, id));
    forall q: nat ensures ShareBookAt(w', id, q) {
      assert ShareBookAt(w, id, q);
      RedemptionAt(w, redeemer, id, q);
    }
    OneBookChanged(w, w', id, w.s.calls[id].outcome);
  }

  lemma FlagOpKeepsShareBooks(w: World, op: Op)
    requires ShareBooks(w) && FlagOp(op) && Execute(w.s, op).Ok?
    ensures SharesUntouched(w, Next(w, op))
  {
    OtherOpShape(w, op);
    FlagOpShape(w.s, op);
    match op
    case OpResolve(caller, id, outcome, endPrice) => ResolveShape(w.s, caller, id, outcome, endPrice);
    case OpCancel(creator, id) => CancelShape(w.s, creator, id);
    case OpEmergencyCancel(caller, id) => EmergencyCancelShape(w.s, caller, id);
    case _ =>
  }

  lemma PaymentKeepsShareBooks(w: World, op: Op)
    requires ShareBooks(w) && PaymentOp(op) && !op.OpRedeem? && !op.OpTransferShares? && Execute(w.s, op).Ok?
    ensures SharesUntouched(w, Next(w, op))
  {
    PaymentOpShape(w.s, op);
  }

  lemma LedgerOpKeepsShareBooks(w: World, op: Op)
    requires Books(w) && ShareBooks(w) && !FlagOp(op) && !PaymentOp(op) && Execute(w.s, op).Ok?
    ensures ShareBooks(Next(w, op))
  {
    hide Books, ShareBooks, CreateCall, Stake, WithdrawStake;
    match op
    case OpCreate(creator, token, stakeAmount, startPrice, endTs, n) =>
      CreateKeepsShareBooks(w, creator, token, stakeAmount, startPrice, endTs, n);
    case OpStake(funder, staker, id, amount, position, delivered, qualifies) =>
      StakeKeepsShareBooks(w, funder, staker, id, amount, position, delivered, qualifies);
    case OpWithdraw(staker, id, position) =>
      ExitKeepsShareBooks(w, staker, id, position);
  }

  lemma StepKeepsShareBooks(w: World, op: Op)
    requires Books(w) && ShareBooks(w)
    ensures ShareBooks(Next(w, op))
  {
    if Execute(w.s, op).Ok? {
      if FlagOp(op) {
        FlagOpKeepsShareBooks(w, op);
        UntouchedKeepsShareBooks(w, Next(w, op));
      } else if op.OpRedeem? {
        RedemptionKeepsShareBooks(w, op.redeemer, op.call);
      } else if op.OpTransferShares? {
        TransferKeepsShareBooks(w, op.from, op.to, op.call, op.outcome, op.amount);
      } else if PaymentOp(op) {
        PaymentKeepsShareBooks(w, op);
        UntouchedKeepsShareBooks(w, Next(w, op));
      } else {
        LedgerOpKeepsShareBooks(w, op);
      }
    }
  }

  /** In every reachable state the share books balance and all redemptions so far are
      exact up to one unit each. */
  lemma {:induction false} ShareBooksBalance(w: World, ops: seq<Op>)
    requires Books(w) && ShareBooks(w)
    ensures ShareBooks(Run(w, ops))
    decreases |ops|
  {
    if ops != [] {
      StepKeepsBooks(w, ops[0]);
      StepKeepsShareBooks(w, ops[0]);
      ShareBooksBalance(Next(w, ops[0]), ops[1..]);
    }
  }

  // ---- What the share books promise ----

  /** Paid for the shares of one outcome, over the whole history. */
  function Redeemed(w: World, id: nat, outcome: nat): int {
    Get(GetMap(w.h.redeemed, id), outcome)
  }

  /** Without early exits from the outcome, redemptions of it never pay out more than
      the whole pot, whoever redeems what in which order. */
  lemma RedemptionsWithinPot(w: World, id: nat, outcome: nat)
    requires Books(w) && ShareBooks(w) && id in w.s.calls && Get(w.h.withdrawn, (id, outcome)) == 0
    ensures Redeemed(w, id, outcome) <= Pot(w.s.calls[id])
  {
    var c := w.s.calls[id];
    var pot, winning := Pot(c), Get(c.outcomeStakes, outcome);
    assert ShareBookAt(w, id, outcome) && CallBalanced(w.h.forfeited, id, c);
    BalancedTotals(w.h.forfeited, id, c);
    PotGrows(c, 0, c.outcomeCount);
    if Get(w.h.redemptions, (id, outcome)) > 0 {
      SumNonNegative(GetMap(w.s.shares, (id, outcome)));
      RoundedWithinPot(pot, winning, Get(w.h.burned, (id, outcome)), Redeemed(w, id, outcome),
                       Get(w.h.redemptions, (id, outcome)));
    }
  }

  /** Once every share of the outcome is burned, less than one unit a redemption is
      left of the pot. */
  lemma DustIsBounded(w: World, id: nat, outcome: nat)
    requires Books(w) && ShareBooks(w) && id in w.s.calls
    requires w.s.calls[id].hasShares && Get(w.h.withdrawn, (id, outcome)) == 0
    requires Sum(GetMap(w.s.shares, (id, outcome))) == 0 && Get(w.s.calls[id].outcomeStakes, outcome) > 0
    ensures Pot(w.s.calls[id]) - Redeemed(w, id, outcome) < Get(w.h.redemptions, (id, outcome))
  {
    var c := w.s.calls[id];
    assert ShareBookAt(w, id, outcome) && CallBalanced(w.h.forfeited, id, c);
    BalancedTotals(w.h.forfeited, id, c);
    PotGrows(c, 0, c.outcomeCount);
    RoundedWithinPot(Pot(c), Get(c.outcomeStakes, outcome), Get(w.h.burned, (id, outcome)), Redeemed(w, id, outcome),
                     Get(w.h.redemptions, (id, outcome)));
  }

  /** The pot is at least each position's share of it. */
  lemma {:induction false} PotCoversPosition(c: Call, p: nat, n: nat)
    requires 1 <= p <= n
    requires forall q: nat :: Get(c.outcomeStakes, q) >= 0
    ensures PotUpTo(c.outcomeStakes, n) >= Get(c.outcomeStakes, p)
    decreases n
  {
    if p < n {
      PotCoversPosition(c, p, n - 1);
    } else {
      PotGrows(c, 0, n - 1);
    }
  }

  /** A redemption pays at least one unit for each share, so it is never refused for
      paying nothing. */
  lemma RedemptionCoversShares(w: World, redeemer: Address, id: nat)
    requires Books(w) && ShareBooks(w) && id in w.s.calls
    requires var c := w.s.calls[id]; c.hasShares && c.outcome > 0 && Get(w.h.withdrawn, (id, c.outcome)) == 0
    requires ShareBalance(w.s, id, w.s.calls[id].outcome, redeemer) > 0
    ensures RedemptionPayout(w.s, redeemer, id) >= ShareBalance(w.s, id, w.s.calls[id].outcome, redeemer)
    ensures RedeemShares(w.s, redeemer, id) != Err(ZeroPayout)
  {
    hide Sum, PotUpTo, Rounded, FitsI128, Payout;
    var c := w.s.calls[id];
    var shares := GetMap(w.s.shares, (id, c.outcome));
    assert ShareBookAt(w, id, c.outcome) && CallBalanced(w.h.forfeited, id, c);
    BalancedTotals(w.h.forfeited, id, c);
    SumBoundsEntry(shares, redeemer);
    PotCoversPosition(c, c.outcome, c.outcomeCount);
    PayoutCoversShares(Get(shares, redeemer), Pot(c), Get(c.outcomeStakes, c.outcome));
  }

  /** An early exit leaves its shares in circulation. One account holding all shares of
      an untouched outcome is paid within the pot exactly when nobody left early. */
  lemma EarlyExitBreaksTheBound(w: World, redeemer: Address, id: nat)
    requires Books(w) && ShareBooks(w) && id in w.s.calls
    requires var c := w.s.calls[id]; c.hasShares && c.outcome > 0 && Get(c.outcomeStakes, c.outcome) > 0
    requires var key := (id, w.s.calls[id].outcome);
      Get(w.h.burned, key) == 0 && Get(GetMap(w.s.shares, key), redeemer) == Sum(GetMap(w.s.shares, key))
    ensures RedemptionPayout(w.s, redeemer, id) <= Pot(w.s.calls[id])
            <==> Get(w.h.withdrawn, (id, w.s.calls[id].outcome)) == 0
  {
    var c := w.s.calls[id];
    assert ShareBookAt(w, id, c.outcome) && CallBalanced(w.h.forfeited, id, c);
    BalancedTotals(w.h.forfeited, id, c);
    PotCoversPosition(c, c.outcome, c.outcomeCount);
    SumNonNegative(GetMap(w.s.shares, (id, c.outcome)));
    PayoutWithinPot(Sum(GetMap(w.s.shares, (id, c.outcome))), Pot(c), Get(c.outcomeStakes, c.outcome));
  }

  /** What was paid for the shares burned so far, for any pot. */
  lemma RoundedExcess(pot: int, winning: int, burned: int, paid: int, count: int)
    requires winning > 0 && pot >= winning && count > 0 && Rounded(pot, winning, burned, paid, count)
    ensures pot * (burned - winning) - count * winning < (paid - pot) * winning <= pot * (burned - winning)
    ensures burned <= winning ==> paid <= pot
    ensures burned - winning >= count ==> paid > pot
  {
    Distribute(paid, -pot, winning);
    assert pot * (burned - winning) == pot * burned - pot * winning;
    if burned <= winning {
      MulMonotone(burned - winning, 0, pot);
      if paid > pot {
        MulMonotone(1, paid - pot, winning);
      }
    }
    if burned - winning >= count {
      MulMonotone(count, burned - winning, pot);
      MulMonotone(winning, pot, count);
      if paid <= pot {
        MulMonotone(paid - pot, 0, winning);
      }
    }
  }

  /** The exact excess for any number of holders: once all shares of an outcome are burned,
      its redemptions have paid the pot and the share of it that belongs to the stake
      withdrawn early, less what rounding kept, which is less than one unit a redemption.
      They stayed within the pot if nobody left early, and went beyond it if at least one
      unit a redemption was withdrawn. */
  lemma EarlyExitExcess(w: World, id: nat, outcome: nat)
    requires Books(w) && ShareBooks(w) && id in w.s.calls
    requires 1 <= outcome <= w.s.calls[id].outcomeCount && Get(w.h.redemptions, (id, outcome)) > 0
    requires Sum(GetMap(w.s.shares, (id, outcome))) == 0
    ensures var c, out := w.s.calls[id], Get(w.h.withdrawn, (id, outcome));
      var pot, winning, count := Pot(c), Get(c.outcomeStakes, outcome), Get(w.h.redemptions, (id, outcome));
      && pot * out - count * winning < (Redeemed(w, id, outcome) - pot) * winning <= pot * out
      && (out == 0 ==> Redeemed(w, id, outcome) <= pot)
      && (out >= count ==> Redeemed(w, id, outcome) > pot)
  {
    hide Pot, Rounded;
    var c := w.s.calls[id];
    assert ShareBookAt(w, id, outcome) && CallBalanced(w.h.forfeited, id, c);
    BalancedTotals(w.h.forfeited, id, c);
    PotAtLeast(c, outcome);
    RoundedExcess(Pot(c), Get(c.outcomeStakes, outcome), Get(w.h.burned, (id, outcome)), Redeemed(w, id, outcome),
                  Get(w.h.redemptions, (id, outcome)));
  }

  lemma PotAtLeast(c: Call, p: nat)
    requires 1 <= p <= c.outcomeCount && forall q: nat :: Get(c.outcomeStakes, q) >= 0
    ensures Pot(c) >= Get(c.outcomeStakes, p)
  {
    PotCoversPosition(c, p, c.outcomeCount);
  }
}
