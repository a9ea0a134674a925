/** What the token still owes its holders while tokens move: the exact effect of a
    transfer, the runs in which no more is distributed than collected, and a run in which
    more is. */
module BackitLiability {
  import opened Basics
  import opened Sums
  import opened Arithmetic
  import opened BackitToken
  import opened BackitSupply
  import opened BackitRevenue

  /** A holder's claim on fees not drawn yet, before rounding and in units of one
      supply-th. */
  function OwedTo(s: Token, holder: Address): int {
    EffectiveBalance(s, holder) * (s.totalFees - Get(s.lastClaim, holder))
  }

  function OwedMap(s: Token): map<Address, int> {
    map a | a in Holders(s) :: OwedTo(s, a)
  }

  ghost function Owed(s: Token): int {
    Sum(OwedMap(s))
  }

  /** What was distributed and what is still owed come out of the fees. */
  ghost predicate Covered(s: Token) {
    InSupplies(s.totalDistributed) + Owed(s) <= InSupplies(s.totalFees)
  }

  /** Nobody is owed less than nothing. */
  lemma OwedNonNegative(s: Token, holder: Address)
    requires Conserved(s) && SnapshotsInPast(s)
    ensures OwedTo(s, holder) >= 0
  {
    hide Conserved, SnapshotsInPast, EffectiveBalance;
    WeightWithinSupply(s, holder);
    Snapshot(s, holder);
    MulMonotone(0, s.totalFees - Get(s.lastClaim, holder), EffectiveBalance(s, holder));
  }

  lemma CoveredMeansWithin(s: Token)
    requires Conserved(s) && SnapshotsInPast(s) && Covered(s)
    ensures s.totalDistributed <= s.totalFees
  {
    hide Conserved, SnapshotsInPast, OwedTo;
    forall a | a in OwedMap(s) ensures OwedMap(s)[a] >= 0 {
      OwedNonNegative(s, a);
    }
    SumNonNegative(OwedMap(s));
  }

  // ---- Transfers ----

  lemma TransferBalances(s: Token, from: Address, to: Address, amount: int)
    requires Transfer(s, from, to, amount).Ok?
    ensures var t := Transfer(s, from, to, amount).value;
      && amount > 0 && from != CONTRACT && t == s.(balances := t.balances)
      && (forall a :: Get(t.balances, a) == Get(s.balances, a) - (if a == from then amount else 0)
                                            + if a == to then amount else 0)
  {
    hide FitsI128;
  }

  /** If the entry of one holder changes, the sum changes by as much. */
  lemma OwedMoves(s: Token, t: Token, from: Address, to: Address)
    requires from != CONTRACT && from != to
    requires forall a :: a != from && a != to ==> Get(OwedMap(t), a) == Get(OwedMap(s), a)
    ensures Owed(t) == Owed(s) + Get(OwedMap(t), from) - Get(OwedMap(s), from)
                       + Get(OwedMap(t), to) - Get(OwedMap(s), to)
  {
    hide OwedMap;
    var m := OwedMap(s);
    var m1 := m[from := Get(OwedMap(t), from)];
    var m2 := m1[to := Get(OwedMap(t), to)];
    SumUpdate(m, from, Get(OwedMap(t), from));
    SumUpdate(m1, to, Get(OwedMap(t), to));
    SumSame(m2, OwedMap(t));
  }

  /** Absent holders are owed nothing, so the map can be read with a default. */
  lemma OwedEntry(s: Token, a: Address)
    ensures Get(OwedMap(s), a) == if a == CONTRACT then 0 else OwedTo(s, a)
  {
    if a !in Holders(s) && a != CONTRACT {
      NoWeight(s, a);
    }
  }

  /** A transfer changes only what its two parties are owed. */
  lemma TransferKeepsOthers(s: Token, from: Address, to: Address, amount: int, a: Address)
    requires Transfer(s, from, to, amount).Ok? && a != from && a != to
    ensures Get(OwedMap(Transfer(s, from, to, amount).value), a) == Get(OwedMap(s), a)
  {
    hide OwedMap;
    TransferBalances(s, from, to, amount);
    OwedEntry(s, a);
    OwedEntry(Transfer(s, from, to, amount).value, a);
  }

  /** The fees a holder has not drawn on yet. */
  function NewFees(s: Token, holder: Address): int {
    s.totalFees - Get(s.lastClaim, holder)
  }

  /** The weight that a holder would have with this much more, or less, in liquid tokens. */
  function WeightAfter(s: Token, holder: Address, change: int): int {
    Weight(s.totalSupply, Get(s.balances, holder) + change, StakeOf(s, holder))
  }

  /** What a transfer takes from the sender's claim and adds to the receiver's: for a staked
      holder at the cap the weight moves by less than the amount, and the contract itself
      has no claim. */
  function Given(s: Token, from: Address, amount: int): int {
    (EffectiveBalance(s, from) - WeightAfter(s, from, -amount)) * NewFees(s, from)
  }

  function Received(s: Token, to: Address, amount: int): int {
    if to == CONTRACT then 0 else (WeightAfter(s, to, amount) - EffectiveBalance(s, to)) * NewFees(s, to)
  }

  /** What the two parties are owed afterwards. */
  lemma PartiesOwed(s: Token, from: Address, to: Address, amount: int)
    requires Transfer(s, from, to, amount).Ok? && from != to
    ensures var t := Transfer(s, from, to, amount).value;
      && OwedTo(t, from) == WeightAfter(s, from, -amount) * NewFees(s, from)
      && OwedTo(t, to) == WeightAfter(s, to, amount) * NewFees(s, to)
  {
    hide Transfer, Weight;
    TransferBalances(s, from, to, amount);
  }

  /** The exact effect of a transfer between any two holders, staked or not. */
  lemma TransferMovesOwed(s: Token, from: Address, to: Address, amount: int)
    requires Transfer(s, from, to, amount).Ok? && from != to
    ensures Owed(Transfer(s, from, to, amount).value) == Owed(s) - Given(s, from, amount) + Received(s, to, amount)
  {
    hide OwedMap, Owed, OwedTo, Transfer, WeightAfter, NewFees, EffectiveBalance;
    var t := Transfer(s, from, to, amount).value;
    assert from != CONTRACT by { TransferBalances(s, from, to, amount); }
    forall a | a != from && a != to ensures Get(OwedMap(t), a) == Get(OwedMap(s), a) {
      TransferKeepsOthers(s, from, to, amount, a);
    }
    OwedMoves(s, t, from, to);
    OwedEntry(s, from); OwedEntry(s, to); OwedEntry(t, from); OwedEntry(t, to);
    PartiesOwed(s, from, to, amount);
    OwedByNewFees(s, from);
    OwedByNewFees(s, to);
    Distribute(EffectiveBalance(s, from), -WeightAfter(s, from, -amount), NewFees(s, from));
    Distribute(WeightAfter(s, to, amount), -EffectiveBalance(s, to), NewFees(s, to));
  }

  lemma OwedByNewFees(s: Token, a: Address)
    ensures OwedTo(s, a) == EffectiveBalance(s, a) * NewFees(s, a)
  {
  }

  /** Between unstaked holders the amount takes the snapshot of its new holder. */
  lemma UnstakedTransferMovesOwed(s: Token, from: Address, to: Address, amount: int)
    requires from !in s.stakes && to !in s.stakes && to != CONTRACT
    ensures Received(s, to, amount) - Given(s, from, amount) == amount * (Get(s.lastClaim, from) - Get(s.lastClaim, to))
  {
    Distribute(s.totalFees - Get(s.lastClaim, to), -(s.totalFees - Get(s.lastClaim, from)), amount);
  }

  /** Books that come out even: what was distributed and what is owed are all the fees. */
  ghost predicate Even(s: Token) {
    InSupplies(s.totalDistributed) + Owed(s) == InSupplies(s.totalFees)
  }

  /** A transfer owes nobody more, and keeps even books covered, exactly when the receiver's
      claim grows by no more than the sender's shrinks; between unstaked holders, exactly
      when the sender's snapshot is not ahead of the receiver's. */
  lemma TransferKeepsCoveredIff(s: Token, from: Address, to: Address, amount: int)
    requires Transfer(s, from, to, amount).Ok? && from != to
    ensures var t := Transfer(s, from, to, amount).value;
      && (Owed(t) <= Owed(s) <==> Received(s, to, amount) <= Given(s, from, amount))
      && (Even(s) ==> (Covered(t) <==> Received(s, to, amount) <= Given(s, from, amount)))
    ensures from !in s.stakes && to !in s.stakes && to != CONTRACT
            ==> (Received(s, to, amount) <= Given(s, from, amount)
                 <==> Get(s.lastClaim, from) <= Get(s.lastClaim, to))
  {
    hide Owed, Transfer, Given, Received;
    TransferBalances(s, from, to, amount);
    TransferMovesOwed(s, from, to, amount);
    if from !in s.stakes && to !in s.stakes && to != CONTRACT {
      UnstakedTransferMovesOwed(s, from, to, amount);
      var ahead := Get(s.lastClaim, from) - Get(s.lastClaim, to);
      if ahead <= 0 {
        MulMonotone(ahead, 0, amount);
      } else {
        MulMonotone(1, ahead, amount);
      }
    }
  }

  // ---- Guarded runs ----

  /** What a caller can check before a call that would succeed: fees arrive only while the
      weights fit the supply, and no transfer adds more to the receiver's claim than it takes
      from the sender's. */
  ghost predicate Guarded(s: Token, op: Op) {
    Execute(s, op).Ok? ==>
      match op
      case OpDeposit(_) => TotalWeight(s) <= 1_000_000_000_000_000
      case OpTransfer(from, to, amount) => from == to || Received(s, to, amount) <= Given(s, from, amount)
      case _ => true
  }

  /** Entry by entry, nobody is owed more. */
  lemma NobodyOwedMore(s: Token, t: Token)
    requires forall a :: a != CONTRACT ==> OwedTo(t, a) <= OwedTo(s, a)
    requires forall a :: a != CONTRACT ==> OwedTo(s, a) >= 0
    ensures Owed(t) <= Owed(s)
  {
    hide OwedTo, OwedMap;
    forall a ensures Get(OwedMap(t), a) <= Get(OwedMap(s), a) && Get(OwedMap(s), a) >= 0 {
      OwedEntry(s, a);
      OwedEntry(t, a);
    }
    forall a | a in OwedMap(t) ensures OwedMap(t)[a] <= Get(OwedMap(s), a) {
      assert Get(OwedMap(t), a) <= Get(OwedMap(s), a);
    }
    forall a | a in OwedMap(s) ensures OwedMap(s)[a] >= 0 {
      assert Get(OwedMap(s), a) >= 0;
    }
    SumMonotone(OwedMap(t), OwedMap(s));
  }

  /** A lower weight at the same snapshot, or any weight at a current snapshot. */
  lemma LessOwed(s: Token, t: Token, a: Address)
    requires Conserved(s) && SnapshotsInPast(s) && t.totalFees == s.totalFees
    requires (EffectiveBalance(t, a) <= EffectiveBalance(s, a) && Get(t.lastClaim, a) == Get(s.lastClaim, a))
             || Get(t.lastClaim, a) == t.totalFees
    ensures OwedTo(t, a) <= OwedTo(s, a)
  {
    hide Conserved, SnapshotsInPast, EffectiveBalance;
    OwedNonNegative(s, a);
    Snapshot(s, a);
    if Get(t.lastClaim, a) == Get(s.lastClaim, a) {
      if EffectiveBalance(t, a) <= EffectiveBalance(s, a) {
        MulMonotone(EffectiveBalance(t, a), EffectiveBalance(s, a), s.totalFees - Get(s.lastClaim, a));
      }
    }
  }

  lemma StakeOwesLess(s: Token, staker: Address, amount: int, lockDuration: nat)
    requires Conserved(s) && SnapshotsInPast(s) && StakeBackit(s, staker, amount, lockDuration).Ok?
    ensures Owed(StakeBackit(s, staker, amount, lockDuration).value) <= Owed(s)
  {
    hide Conserved, SnapshotsInPast, OwedTo, Owed;
    var t := StakeBackit(s, staker, amount, lockDuration).value;
    forall a | a != CONTRACT ensures OwedTo(t, a) <= OwedTo(s, a) && OwedTo(s, a) >= 0 {
      LessOwed(s, t, a);
      OwedNonNegative(s, a);
    }
    NobodyOwedMore(s, t);
  }

  /** A stake counts at least twice while it lasts, so giving it back lowers the weight. */
  lemma UnstakingLowersWeight(s: Token, staker: Address, a: Address)
    requires Conserved(s) && UnstakeBackit(s, staker).Ok?
    ensures EffectiveBalance(UnstakeBackit(s, staker).value, a) <= EffectiveBalance(s, a)
  {
    hide FitsI128;
    if a == staker {
      UnstakeConserves(s, staker);
      WeightWithinSupply(UnstakeBackit(s, staker).value, staker);
      var record := s.stakes[staker];
      MulMonotone(1, record.boost, record.amount * 2);
    }
  }

  lemma UnstakeOwesLess(s: Token, staker: Address)
    requires Conserved(s) && SnapshotsInPast(s) && UnstakeBackit(s, staker).Ok?
    ensures Owed(UnstakeBackit(s, staker).value) <= Owed(s)
  {
    hide Conserved, SnapshotsInPast, OwedTo, Owed, EffectiveBalance;
    var t := UnstakeBackit(s, staker).value;
    forall a | a != CONTRACT ensures OwedTo(t, a) <= OwedTo(s, a) && OwedTo(s, a) >= 0 {
      UnstakingLowersWeight(s, staker, a);
      LessOwed(s, t, a);
      OwedNonNegative(s, a);
    }
    NobodyOwedMore(s, t);
  }

  lemma GuardedTransferOwesLess(s: Token, from: Address, to: Address, amount: int)
    requires Transfer(s, from, to, amount).Ok? && Guarded(s, OpTransfer(from, to, amount))
    ensures Owed(Transfer(s, from, to, amount).value) <= Owed(s)
  {
    hide Owed, Transfer, Given, Received;
    TransferBalances(s, from, to, amount);
    if from == to {
      SameOwedTwice(s, Transfer(s, from, to, amount).value);
    } else {
      TransferMovesOwed(s, from, to, amount);
    }
  }

  lemma SameOwedTwice(s: Token, t: Token)
    requires t == s.(balances := t.balances) && forall a :: Get(t.balances, a) == Get(s.balances, a)
    ensures Owed(t) == Owed(s)
  {
    hide OwedMap;
    forall a ensures Get(OwedMap(t), a) == Get(OwedMap(s), a) {
      OwedEntry(s, a);
      OwedEntry(t, a);
    }
    SumSame(OwedMap(t), OwedMap(s));
  }

  lemma DepositShape(s: Token, amount: int)
    requires FeePoolDeposit(s, amount).Ok?
    ensures var t := FeePoolDeposit(s, amount).value;
      amount > 0 && t == s.(totalFees := s.totalFees + amount, usdc := t.usdc)
  {
    hide FitsI128, SendUsdc;
  }

  /** What more fees are worth to one holder. */
  lemma MoreFeesOwed(s: Token, t: Token, amount: int, a: Address)
    requires t == s.(totalFees := s.totalFees + amount, usdc := t.usdc)
    ensures OwedTo(t, a) == OwedTo(s, a) + EffectiveBalance(s, a) * amount
  {
    hide EffectiveBalance;
    SameTokensSameWeights(s, t);
    Distribute(s.totalFees - Get(s.lastClaim, a), amount, EffectiveBalance(s, a));
  }

  lemma DepositOwesMore(s: Token, amount: int)
    requires FeePoolDeposit(s, amount).Ok?
    ensures Owed(FeePoolDeposit(s, amount).value) == Owed(s) + TotalWeight(s) * amount
    ensures FeePoolDeposit(s, amount).value.totalFees == s.totalFees + amount && amount > 0
    ensures FeePoolDeposit(s, amount).value.totalDistributed == s.totalDistributed
  {
    hide EffectiveBalance, OwedTo, FeePoolDeposit;
    var t := FeePoolDeposit(s, amount).value;
    DepositShape(s, amount);
    var more := map a | a in Holders(s) :: EffectiveBalance(s, a) * amount;
    SumScale(Weights(s), more, amount);
    forall a | a in Holders(s) ensures OwedMap(t)[a] == OwedMap(s)[a] + more[a] {
      MoreFeesOwed(s, t, amount, a);
    }
    SumAdd(OwedMap(t), OwedMap(s), more);
  }

  lemma PaymentWithinOwed(s: Token, holder: Address)
    requires Conserved(s) && SnapshotsInPast(s) && s.config.Some?
    ensures InSupplies(Estimate(s, holder)) <= OwedTo(s, holder)
  {
    hide Conserved, SnapshotsInPast, EffectiveBalance, Estimate;
    Snapshot(s, holder);
    ShareRounds(s, holder);
    var w := EffectiveBalance(s, holder);
    assert w * (s.totalFees - Get(s.lastClaim, holder)) == w * s.totalFees - w * Get(s.lastClaim, holder);
  }

  lemma ClaimOwesLess(s: Token, holder: Address)
    requires Conserved(s) && SnapshotsInPast(s) && s.config.Some? && ClaimRevenueShare(s, holder).Ok?
    ensures var t := ClaimRevenueShare(s, holder).value;
      && InSupplies(t.totalDistributed) + Owed(t) <= InSupplies(s.totalDistributed) + Owed(s)
      && t.totalFees == s.totalFees
  {
    hide Conserved, SnapshotsInPast, EffectiveBalance, Estimate, ClaimRevenueShare, OwedMap, OwedTo;
    var t := ClaimRevenueShare(s, holder).value;
    ClaimEarns(s, holder);
    PaymentWithinOwed(s, holder);
    OwedEntry(s, holder);
    forall a ensures Get(OwedMap(t), a) == if a == holder then 0 else Get(OwedMap(s), a) {
      OwedEntry(s, a);
      OwedEntry(t, a);
      ClaimMovesOneSnapshot(s, holder, a);
      OwedAfterClaim(s, t, holder, a);
    }
    SumUpdate(OwedMap(s), holder, 0);
    SumSame(OwedMap(t), OwedMap(s)[holder := 0]);
  }

  lemma OwedAfterClaim(s: Token, t: Token, holder: Address, a: Address)
    requires SameTokens(s, t) && t.totalFees == s.totalFees
    requires Get(t.lastClaim, a) == if a == holder then s.totalFees else Get(s.lastClaim, a)
    ensures OwedTo(t, a) == if a == holder then 0 else OwedTo(s, a)
  {
    SameTokensSameWeights(s, t);
  }

  lemma ClaimMovesOneSnapshot(s: Token, holder: Address, a: Address)
    requires ClaimRevenueShare(s, holder).Ok?
    ensures var t := ClaimRevenueShare(s, holder).value;
      && holder != CONTRACT
      && Get(t.lastClaim, a) == if a == holder then s.totalFees else Get(s.lastClaim, a)
  {
    hide FitsI128, SendUsdc, Estimate, EffectiveBalance;
  }

  /** Everything a run keeps. */
  ghost predicate Accounted(s: Token) {
    Sound(s) && Covered(s)
  }

  lemma UncollectedOwesNothing(s: Token)
    requires SnapshotsInPast(s) && s.totalFees == 0
    ensures Owed(s) == 0
  {
    forall a ensures Get(OwedMap(s), a) == Get(map[], a) {
      OwedEntry(s, a);
      Snapshot(s, a);
    }
    SumSame(OwedMap(s), map[]);
    assert Sum<Address>(map[]) == 0;
  }

  lemma DepositKeepsCovered(s: Token, amount: int)
    requires Covered(s) && TotalWeight(s) <= 1_000_000_000_000_000 && FeePoolDeposit(s, amount).Ok?
    ensures Covered(FeePoolDeposit(s, amount).value)
  {
    hide FeePoolDeposit, Owed, TotalWeight;
    DepositOwesMore(s, amount);
    MulMonotone(TotalWeight(s), 1_000_000_000_000_000, amount);
  }

  /** A deposit keeps even books covered exactly when the weights fit the supply. */
  lemma DepositKeepsCoveredIff(s: Token, amount: int)
    requires Even(s) && FeePoolDeposit(s, amount).Ok?
    ensures Covered(FeePoolDeposit(s, amount).value) <==> TotalWeight(s) <= 1_000_000_000_000_000
  {
    hide FeePoolDeposit, Owed, TotalWeight;
    DepositOwesMore(s, amount);
    if TotalWeight(s) <= 1_000_000_000_000_000 {
      DepositKeepsCovered(s, amount);
    } else {
      MulMonotone(1_000_000_000_000_001, TotalWeight(s), amount);
    }
  }

  lemma StepKeepsCovered(s: Token, op: Op)
    requires Accounted(s) && Guarded(s, op)
    ensures Covered(Next(s, op))
  {
    hide Conserved, SnapshotsInPast, Owed, Initialize, Transfer, FeePoolDeposit, ClaimRevenueShare, StakeBackit,
         UnstakeBackit;
    if Execute(s, op).Ok? {
      match op
      case OpInitialize(admin, d) => InitializeKeepsCovered(s, admin, d);
      case OpTransfer(from, to, amount) =>
        TransferBalances(s, from, to, amount);
        GuardedTransferOwesLess(s, from, to, amount);
      case OpDeposit(amount) => DepositKeepsCovered(s, amount);
      case OpClaim(holder) =>
        ClaimNeedsConfig(s, holder);
        ClaimOwesLess(s, holder);
      case OpStake(staker, amount, lockDuration) =>
        StakeMovesNoFees(s, staker, amount, lockDuration);
        StakeOwesLess(s, staker, amount, lockDuration);
      case OpUnstake(staker) =>
        UnstakeMovesNoFees(s, staker);
        UnstakeOwesLess(s, staker);
      case _ => SameOwedLater(s, Next(s, op));
    }
  }

  lemma InitializeKeepsCovered(s: Token, admin: Address, d: Distribution)
    requires Accounted(s) && Initialize(s, admin, d).Ok?
    ensures Covered(Initialize(s, admin, d).value)
  {
    hide Conserved, InitialBalances, Owed;
    UncollectedOwesNothing(Initialize(s, admin, d).value);
  }

  lemma ClaimNeedsConfig(s: Token, holder: Address)
    requires ClaimRevenueShare(s, holder).Ok?
    ensures s.config.Some?
  {
  }

  lemma StakeMovesNoFees(s: Token, staker: Address, amount: int, lockDuration: nat)
    requires StakeBackit(s, staker, amount, lockDuration).Ok?
    ensures var t := StakeBackit(s, staker, amount, lockDuration).value;
      t.totalFees == s.totalFees && t.totalDistributed == s.totalDistributed
  {
  }

  lemma UnstakeMovesNoFees(s: Token, staker: Address)
    requires UnstakeBackit(s, staker).Ok?
    ensures var t := UnstakeBackit(s, staker).value;
      t.totalFees == s.totalFees && t.totalDistributed == s.totalDistributed
  {
  }

  lemma SameOwedLater(s: Token, t: Token)
    requires t == s.(now := t.now, usdc := t.usdc)
    ensures Owed(t) == Owed(s)
  {
    SameTokensSameWeights(s, t);
    assert OwedMap(t) == OwedMap(s);
  }

  /** Every transaction of the run met its guard when it was executed. */
  ghost predicate GuardedRun(s: Token, ops: seq<Op>) {
    forall i :: 0 <= i < |ops| ==> Guarded(Run(s, ops[..i]), ops[i])
  }

  lemma DeployedIsAccounted(s: Token)
    requires Deployed(s)
    ensures Accounted(s)
  {
    DeployedConserves(s);
    UncollectedOwesNothing(s);
  }

  lemma StepKeepsAccounted(s: Token, op: Op)
    requires Accounted(s) && Guarded(s, op)
    ensures Accounted(Next(s, op))
  {
    hide Next, Sound, Covered;
    StepKeepsSound(s, op);
    StepKeepsCovered(s, op);
  }

  lemma {:induction false} GuardedRunIsAccounted(s: Token, ops: seq<Op>)
    requires Deployed(s) && GuardedRun(s, ops)
    ensures Accounted(Run(s, ops))
  {
    hide Next, Accounted, Guarded;
    if ops == [] {
      DeployedIsAccounted(s);
    } else {
      var n := |ops| - 1;
      forall i | 0 <= i < n ensures Guarded(Run(s, ops[..n][..i]), ops[..n][i]) {
        assert ops[..n][..i] == ops[..i];
      }
      GuardedRunIsAccounted(s, ops[..n]);
      StepKeepsAccounted(Run(s, ops[..n]), ops[n]);
    }
  }

  /** From deployment on, with transfers, stakes and unstakes among deposits and claims in
      any order: while deposits find weights within the supply and no transfer adds more to
      the receiver's claim than it takes from the sender's, no more is distributed than
      collected, and the pool pays every claim. */
  lemma DistributedWithinFeesInGuardedRuns(s: Token, ops: seq<Op>, holder: Address)
    requires Deployed(s) && GuardedRun(s, ops)
    ensures var t := Run(s, ops);
      t.totalDistributed <= t.totalFees && !RunsDry(t, holder)
  {
    hide Conserved, SnapshotsInPast, Covered, RunsDry, Estimate, Run, GuardedRun;
    var t := Run(s, ops);
    GuardedRunIsAccounted(s, ops);
    CoveredMeansWithin(t);
    ClaimWithinPool(t, holder);
    CoveredIsPaid(t, holder);
  }

  /** Nobody's next payment exceeds what is collected and not distributed. */
  lemma ClaimWithinPool(s: Token, holder: Address)
    requires Accounted(s)
    ensures holder != CONTRACT ==> Estimate(s, holder) <= Get(s.usdc, CONTRACT)
  {
    hide Conserved, SnapshotsInPast, Estimate, OwedTo, OwedMap;
    CoveredMeansWithin(s);
    if holder != CONTRACT && s.config.Some? {
      PaymentWithinOwed(s, holder);
      OwedEntry(s, holder);
      forall a | a in OwedMap(s) ensures OwedMap(s)[a] >= 0 {
        OwedEntry(s, a);
        OwedNonNegative(s, a);
        assert Get(OwedMap(s), a) == OwedMap(s)[a];
      }
      SumBoundsEntry(OwedMap(s), holder);
    } else if holder != CONTRACT {
      NothingToClaim(s, holder);
    }
  }

  lemma NothingToClaim(s: Token, holder: Address)
    requires Conserved(s) && s.config.None?
    ensures Estimate(s, holder) == 0
  {
  }

  // ---- A run that distributes more than was collected ----

  /** All tokens are liquid and with one holder, and no fee has arrived. */
  predicate Sole(s: Token, holder: Address) {
    && s.config.Some? && s.config.value.admin != CONTRACT && s.totalSupply == 1_000_000_000_000_000
    && s.totalFees == 0 && s.totalDistributed == 0 && s.stakes == map[] && s.lastClaim == map[]
    && Get(s.balances, holder) == 1_000_000_000_000_000 && holder != CONTRACT
    && forall a :: a in s.balances && a != holder ==> s.balances[a] == 0
  }

  lemma RunOne(s: Token, a: Op, rest: seq<Op>)
    ensures Run(s, [a] + rest) == Run(Next(s, a), rest)
  {
    hide Next;
    RunConcat(s, [a], rest);
    assert [a][..0] == [];
  }

  lemma MoveAllOf(s: Token, from: Address, to: Address)
    requires from != CONTRACT && from != to && Get(s.balances, from) > 0
    requires FitsI128(Get(s.balances, from) + Get(s.balances, to))
    ensures var t := Next(s, OpTransfer(from, to, Get(s.balances, from)));
      t == s.(balances := s.balances[from := 0][to := Get(s.balances, from) + Get(s.balances, to)])
  {
    hide FitsI128;
  }

  /** The other recipients hand their allocation to the first one. */
  function Gathering(admin: Address, d: Distribution): seq<Op> {
    [OpInitialize(admin, d)] + [OpTransfer(d.team, d.community, 200_000_000_000_000)]
    + [OpTransfer(d.treasury, d.community, 150_000_000_000_000)]
    + [OpTransfer(d.liquidity, d.community, 150_000_000_000_000)]
    + [OpTransfer(d.airdrop, d.community, 100_000_000_000_000)]
  }

  predicate Recipients(d: Distribution) {
    Distinct(d) && CONTRACT !in {d.community, d.team, d.treasury, d.liquidity, d.airdrop}
  }

  lemma GatheredIsSole(s: Token, admin: Address, d: Distribution)
    requires Deployed(s) && Recipients(d) && admin != CONTRACT
    ensures var u := Run(s, Gathering(admin, d));
      Sole(u, d.community) && u.usdc == s.usdc && u.config.value.admin == admin
  {
    hide Run, Next;
    var none: seq<Op> := [];
    var i, t1 := OpInitialize(admin, d), OpTransfer(d.team, d.community, 200_000_000_000_000);
    var t2 := OpTransfer(d.treasury, d.community, 150_000_000_000_000);
    var t3 := OpTransfer(d.liquidity, d.community, 150_000_000_000_000);
    var t4 := OpTransfer(d.airdrop, d.community, 100_000_000_000_000);
    assert Gathering(admin, d) == [i] + ([t1] + ([t2] + ([t3] + ([t4] + none))));
    var s0 := Next(s, i);
    RunOne(s, i, [t1] + ([t2] + ([t3] + ([t4] + none))));
    Allocated(s, admin, d);
    var s1 := Next(s0, t1);
    RunOne(s0, t1, [t2] + ([t3] + ([t4] + none)));
    MoveAllOf(s0, d.team, d.community);
    var s2 := Next(s1, t2);
    RunOne(s1, t2, [t3] + ([t4] + none));
    MoveAllOf(s1, d.treasury, d.community);
    var s3 := Next(s2, t3);
    RunOne(s2, t3, [t4] + none);
    MoveAllOf(s2, d.liquidity, d.community);
    RunOne(s3, t4, none);
    MoveAllOf(s3, d.airdrop, d.community);
    RunNone(Next(s3, t4));
  }

  lemma RunNone(s: Token)
    ensures Run(s, []) == s
  {
  }

  lemma Allocated(s: Token, admin: Address, d: Distribution)
    requires Deployed(s) && Recipients(d) && admin != CONTRACT
    ensures var t := Next(s, OpInitialize(admin, d));
      && t == s.(config := Some(Config(admin, d)), totalSupply := 1_000_000_000_000_000, balances := t.balances)
      && t.balances == map[d.community := 400_000_000_000_000, d.team := 200_000_000_000_000,
                           d.treasury := 150_000_000_000_000, d.liquidity := 150_000_000_000_000,
                           d.airdrop := 100_000_000_000_000]
  {
  }

  /** One deposit as large as the supply. */
  lemma FirstFeeArrives(s: Token, holder: Address)
    requires Sole(s, holder) && Get(s.usdc, CONTRACT) >= 0
    requires FitsI128(Get(s.usdc, CONTRACT) + 1_000_000_000_000_000)
    ensures var funded := Next(s, OpUsdcActivity(s.config.value.admin, 1_000_000_000_000_000));
      var t := Next(funded, OpDeposit(1_000_000_000_000_000));
      && t == s.(totalFees := 1_000_000_000_000_000, usdc := t.usdc)
      && Get(t.usdc, CONTRACT) == Get(s.usdc, CONTRACT) + 1_000_000_000_000_000
  {
  }

  /** A holder of all tokens who never claimed draws all fees, after spending any USDC. */
  lemma SoleHolderClaims(s: Token, holder: Address)
    requires s.config.Some? && s.totalSupply == s.totalFees == 1_000_000_000_000_000 && s.stakes == map[]
    requires Get(s.balances, holder) == 1_000_000_000_000_000 && holder != CONTRACT && holder !in s.lastClaim
    requires Get(s.usdc, CONTRACT) >= 1_000_000_000_000_000 && 0 <= s.totalDistributed <= 1_000_000_000_000_000
    ensures var t := Next(Next(s, OpUsdcActivity(holder, 0)), OpClaim(holder));
      && t == s.(lastClaim := s.lastClaim[holder := s.totalFees],
                 totalDistributed := s.totalDistributed + 1_000_000_000_000_000, usdc := t.usdc)
      && Get(t.usdc, CONTRACT) == Get(s.usdc, CONTRACT) - 1_000_000_000_000_000
  {
    var spent := Next(s, OpUsdcActivity(holder, 0));
    assert Estimate(spent, holder) == 1_000_000_000_000_000;
  }

  /** The first holder claims everything, passes the tokens on to an address that never
      claimed, and that address claims everything again out of USDC sent to the contract. */
  function DrawingTwice(admin: Address, holder: Address, other: Address, pool: int): seq<Op> {
    [OpUsdcActivity(admin, 1_000_000_000_000_000)] + [OpDeposit(1_000_000_000_000_000)]
    + [OpUsdcActivity(holder, 0)] + [OpClaim(holder)] + [OpTransfer(holder, other, 1_000_000_000_000_000)]
    + [OpUsdcActivity(CONTRACT, pool + 1_000_000_000_000_000)] + [OpUsdcActivity(other, 0)] + [OpClaim(other)]
  }

  lemma SoleTokensDrawTwice(s: Token, holder: Address, other: Address)
    requires Sole(s, holder) && other != holder && other != CONTRACT && Get(s.usdc, CONTRACT) >= 0
    requires FitsI128(Get(s.usdc, CONTRACT) + 1_000_000_000_000_000)
    ensures var t := Run(s, DrawingTwice(s.config.value.admin, holder, other, Get(s.usdc, CONTRACT)));
      t.totalFees == 1_000_000_000_000_000 && t.totalDistributed == 2_000_000_000_000_000
  {
    hide Run, Next, FitsI128;
    var none: seq<Op> := [];
    var pool := Get(s.usdc, CONTRACT);
    var a, b := OpUsdcActivity(s.config.value.admin, 1_000_000_000_000_000), OpDeposit(1_000_000_000_000_000);
    var c, d, e := OpUsdcActivity(holder, 0), OpClaim(holder), OpTransfer(holder, other, 1_000_000_000_000_000);
    var f, g, h := OpUsdcActivity(CONTRACT, pool + 1_000_000_000_000_000), OpUsdcActivity(other, 0), OpClaim(other);
    var last := [f] + ([g] + ([h] + none));
    assert DrawingTwice(s.config.value.admin, holder, other, pool) == [a] + ([b] + ([c] + ([d] + ([e] + last))));
    var s1 := Next(s, a);
    var s2 := Next(s1, b);
    var s3 := Next(s2, c);
    var s4 := Next(s3, d);
    var s5 := Next(s4, e);
    var s6 := Next(s5, f);
    var s7 := Next(s6, g);
    RunOne(s, a, [b] + ([c] + ([d] + ([e] + last))));
    RunOne(s1, b, [c] + ([d] + ([e] + last)));
    RunOne(s2, c, [d] + ([e] + last));
    RunOne(s3, d, [e] + last);
    RunOne(s4, e, last);
    RunOne(s5, f, [g] + ([h] + none));
    RunOne(s6, g, [h] + none);
    RunOne(s7, h, none);
    RunNone(Next(s7, h));
    FirstFeeArrives(s, holder);
    SoleHolderClaims(s2, holder);
    SupplyFits();
    MoveAllOf(s4, holder, other);
    PoolTopped(s5, pool);
    SoleHolderClaims(s6, other);
  }

  lemma SupplyFits()
    ensures FitsI128(1_000_000_000_000_000)
  {
  }

  lemma PoolTopped(s: Token, pool: int)
    requires Get(s.usdc, CONTRACT) == pool >= 0
    ensures Next(s, OpUsdcActivity(CONTRACT, pool + 1_000_000_000_000_000))
            == s.(usdc := s.usdc[CONTRACT := pool + 1_000_000_000_000_000])
  {
  }

  /** From every deployment and for all distinct recipients: tokens that have claimed, moved
      to an address that never did, draw the same fees again, and twice the fees collected
      is distributed. */
  lemma UnguardedTransferBreaksTheBound(s: Token, admin: Address, d: Distribution, other: Address)
    requires Deployed(s) && Recipients(d) && admin != CONTRACT && other != d.community && other != CONTRACT
    requires FitsI128(Get(s.usdc, CONTRACT) + 1_000_000_000_000_000)
    ensures var t := Run(s, Gathering(admin, d) + DrawingTwice(admin, d.community, other, Get(s.usdc, CONTRACT)));
      t.totalFees == 1_000_000_000_000_000 && t.totalDistributed == 2 * t.totalFees
  {
    hide Run, Sole, Recipients, Gathering, DrawingTwice, FitsI128;
    GatheredIsSole(s, admin, d);
    RunConcat(s, Gathering(admin, d), DrawingTwice(admin, d.community, other, Get(s.usdc, CONTRACT)));
    assert Run(s, Gathering(admin, d)).config.Some? by { SoleHasConfig(Run(s, Gathering(admin, d)), d.community); }
    SoleTokensDrawTwice(Run(s, Gathering(admin, d)), d.community, other);
  }

  lemma SoleHasConfig(s: Token, holder: Address)
    requires Sole(s, holder)
    ensures s.config.Some?
  {
  }
}
