/** What stakes are worth and how long they last, and who pays and receives USDC: told from
    records and balances, with days and factors spelled out. */
module BackitEffects {
  import opened Basics
  import opened Arithmetic
  import opened BackitToken
  import opened BackitSupply
  import opened BackitRevenue

  const DAY: nat := 86_400

  /** How many of the thresholds 30, 90 and 180 days a lock reaches. */
  function TiersReached(lockDuration: nat): nat {
    (if lockDuration >= 30 * DAY then 1 else 0) + (if lockDuration >= 90 * DAY then 1 else 0)
    + if lockDuration >= 180 * DAY then 1 else 0
  }

  /** The record of a new stake: its amount, one more than the tiers reached, and a lock of
      the length asked for. The staker's liquid balance falls by the amount, the claim
      snapshot comes up to date, and nobody else's balance, stake or snapshot changes. */
  lemma StakeIsRecorded(s: Token, staker: Address, amount: int, lockDuration: nat)
    requires StakeBackit(s, staker, amount, lockDuration).Ok?
    ensures var t := StakeBackit(s, staker, amount, lockDuration).value;
      && staker !in s.stakes && staker in t.stakes && amount > 0 && lockDuration > 0
      && t.stakes[staker].amount == amount && t.stakes[staker].boost == 1 + TiersReached(lockDuration)
      && t.stakes[staker].lockUntil - s.now == lockDuration
      && Get(t.balances, staker) == Get(s.balances, staker) - amount >= 0
      && Get(t.lastClaim, staker) == s.totalFees
      && (forall a :: a != staker ==>
            Get(t.balances, a) == Get(s.balances, a) && StakeOf(t, a) == StakeOf(s, a)
            && Get(t.lastClaim, a) == Get(s.lastClaim, a))
      && t == s.(balances := t.balances, stakes := t.stakes, lastClaim := t.lastClaim)
  {
  }

  /** Liquid tokens count once; staked ones twice, times the boost; nobody counts for more
      than the supply while staked. */
  lemma WeightIs(s: Token, a: Address)
    ensures a !in s.stakes ==> EffectiveBalance(s, a) == Get(s.balances, a)
    ensures a in s.stakes ==>
              var weight := Get(s.balances, a) + 2 * s.stakes[a].boost * s.stakes[a].amount;
              EffectiveBalance(s, a) == if weight <= s.totalSupply then weight else s.totalSupply
  {
    if a in s.stakes {
      var b, m := s.stakes[a].boost, s.stakes[a].amount;
      assert m * 2 * b == 2 * b * m;
    }
  }

  /** The weight of a new stake, in terms of the lock alone. */
  lemma StakedWeight(s: Token, staker: Address, amount: int, lockDuration: nat)
    requires StakeBackit(s, staker, amount, lockDuration).Ok?
    ensures var t := StakeBackit(s, staker, amount, lockDuration).value;
      var weight := Get(s.balances, staker) - amount + 2 * (1 + TiersReached(lockDuration)) * amount;
      EffectiveBalance(t, staker) == if weight <= s.totalSupply then weight else s.totalSupply
  {
    hide StakeBackit, EffectiveBalance, TiersReached;
    StakeIsRecorded(s, staker, amount, lockDuration);
    WeightIs(StakeBackit(s, staker, amount, lockDuration).value, staker);
  }

  lemma MoreTiers(short: nat, long: nat)
    requires short <= long
    ensures TiersReached(short) <= TiersReached(long)
  {
  }

  /** Of two stakers with the same liquid balance who stake the same amount, the one with the
      longer lock never has the lower weight, in the state that holds both stakes. */
  lemma LongerLockWeighsMore(s: Token, a: Address, b: Address, amount: int, short: nat, long: nat)
    requires a != b && short <= long && Get(s.balances, a) == Get(s.balances, b)
    requires StakeBackit(s, a, amount, short).Ok?
    requires StakeBackit(StakeBackit(s, a, amount, short).value, b, amount, long).Ok?
    ensures var t := StakeBackit(StakeBackit(s, a, amount, short).value, b, amount, long).value;
      EffectiveBalance(t, a) <= EffectiveBalance(t, b)
  {
    hide StakeBackit, EffectiveBalance, TiersReached;
    var u := StakeBackit(s, a, amount, short).value;
    var t := StakeBackit(u, b, amount, long).value;
    StakeIsRecorded(s, a, amount, short);
    StakeIsRecorded(u, b, amount, long);
    WeightIs(t, a);
    WeightIs(t, b);
    assert StakeOf(t, a) == StakeOf(u, a);
    MoreTiers(short, long);
    MulMonotone(2 * (1 + TiersReached(short)), 2 * (1 + TiersReached(long)), amount);
  }

  // ---- Locks ----

  /** Nothing shortens a lock: until its time has come, the stake stays as it was made. */
  lemma {:induction false} StakeStaysLocked(s: Token, ops: seq<Op>, staker: Address)
    requires staker in s.stakes
    ensures Run(s, ops).now >= s.now
    ensures Run(s, ops).now < s.stakes[staker].lockUntil ==>
              staker in Run(s, ops).stakes && Run(s, ops).stakes[staker] == s.stakes[staker]
  {
    hide Next;
    if ops != [] {
      StakeStaysLocked(s, ops[..|ops| - 1], staker);
      StepKeepsLocked(Run(s, ops[..|ops| - 1]), ops[|ops| - 1], staker);
    }
  }

  lemma StepKeepsLocked(s: Token, op: Op, staker: Address)
    ensures Next(s, op).now >= s.now
    ensures staker in s.stakes && s.now < s.stakes[staker].lockUntil ==>
              staker in Next(s, op).stakes && Next(s, op).stakes[staker] == s.stakes[staker]
  {
    hide FitsI128, EffectiveBalance, Estimate, InitialBalances, BoostMultiplier, SendUsdc;
  }

  /** In every run from deployment a stake can be taken back exactly when its lock is over,
      and then returns exactly its amount to the staker's liquid balance. */
  lemma UnstakeIff(s: Token, ops: seq<Op>, staker: Address)
    requires Deployed(s) && staker in Run(s, ops).stakes && staker != CONTRACT
    ensures var t := Run(s, ops);
      && (UnstakeBackit(t, staker).Ok? <==> t.now >= t.stakes[staker].lockUntil)
      && (UnstakeBackit(t, staker).Ok? ==>
            var u := UnstakeBackit(t, staker).value;
            && Get(u.balances, staker) == Get(t.balances, staker) + t.stakes[staker].amount && staker !in u.stakes
            && forall a :: a != staker ==> Get(u.balances, a) == Get(t.balances, a) && StakeOf(u, a) == StakeOf(t, a))
  {
    hide Run, Conserved;
    RunConserves(s, ops);
    StakesFit(Run(s, ops), staker);
  }

  /** What a staker holds, liquid and staked, is within the supply. */
  lemma StakesFit(s: Token, staker: Address)
    requires Conserved(s) && staker in s.stakes
    ensures s.config.Some? && FitsI128(Get(s.balances, staker) + s.stakes[staker].amount)
  {
    hide Sums.Sum, InitialBalances;
    MintedIsTheSupply(s.config.value.distribution);
    Sums.SumBoundsEntry(s.balances, staker);
    Sums.SumBoundsEntry(Amounts(s.stakes), staker);
    Sums.SumNonNegative(s.balances);
    assert Amounts(s.stakes)[staker] == s.stakes[staker].amount;
  }

  // ---- USDC ----

  /** Fees come from the admin's account. */
  lemma DepositIsPaidByAdmin(s: Token, amount: int)
    requires FeePoolDeposit(s, amount).Ok? && s.config.value.admin != CONTRACT
    ensures var t := FeePoolDeposit(s, amount).value;
      forall a :: Get(t.usdc, a) == Get(s.usdc, a) - (if a == s.config.value.admin then amount else 0)
                                    + if a == CONTRACT then amount else 0
  {
    hide FitsI128;
  }

  /** A claim pays the holder, out of the contract's account, the holder's part of the fees
      not drawn yet, rounded down, and brings this holder's snapshot up to date. */
  lemma ClaimPaysHolder(s: Token, holder: Address)
    requires Conserved(s) && ClaimRevenueShare(s, holder).Ok?
    ensures var t := ClaimRevenueShare(s, holder).value;
      var paid, due := Get(t.usdc, holder) - Get(s.usdc, holder),
                       EffectiveBalance(s, holder) * (s.totalFees - Get(s.lastClaim, holder));
      && InSupplies(paid) <= due < InSupplies(paid + 1) && paid > 0
      && t.totalDistributed == s.totalDistributed + paid
      && (forall a :: Get(t.usdc, a) == Get(s.usdc, a) + (if a == holder then paid else 0)
                                        - if a == CONTRACT then paid else 0)
      && (forall a :: Get(t.lastClaim, a) == if a == holder then s.totalFees else Get(s.lastClaim, a))
  {
    hide FitsI128, EffectiveBalance, Held;
    assert s.totalSupply == 1_000_000_000_000_000;
    var fees, weight := s.totalFees - Get(s.lastClaim, holder), EffectiveBalance(s, holder);
    DivBounds(fees * weight, s.totalSupply);
  }

  // ---- What is accepted, and what a refusal says ----

  predicate Acceptable(s: Token, op: Op) {
    match op
    case OpInitialize(admin, _) => s.config.None? && admin != CONTRACT
    case OpTransfer(from, _, amount) => amount > 0 && from != CONTRACT && Get(s.balances, from) >= amount
    case OpDeposit(amount) => amount > 0 && s.config.Some? && Get(s.usdc, s.config.value.admin) >= amount
    case OpClaim(holder) =>
      && holder != CONTRACT && s.config.Some? && s.totalSupply != 0 && EffectiveBalance(s, holder) != 0
      && Estimate(s, holder) > 0 && Get(s.usdc, CONTRACT) >= Estimate(s, holder)
    case OpStake(staker, amount, lockDuration) =>
      && staker != CONTRACT && s.config.Some? && amount > 0 && lockDuration > 0 && staker !in s.stakes
      && Get(s.balances, staker) >= amount
    case OpUnstake(staker) =>
      staker != CONTRACT && s.config.Some? && staker in s.stakes && s.now >= s.stakes[staker].lockUntil
    case _ => true
  }

  /** Both ways, for every entry point: it is accepted only under these conditions, and then
      only a number out of range can stop it. */
  lemma AcceptedIffAcceptable(s: Token, op: Op)
    requires !op.OpClock? && !op.OpUsdcActivity?
    ensures Execute(s, op).Ok? ==> Acceptable(s, op)
    ensures Acceptable(s, op) ==> Execute(s, op).Ok? || Execute(s, op) == Err(Overflow)
  {
    hide FitsI128, EffectiveBalance, InitialBalances, BoostMultiplier;
  }

  predicate Reason(s: Token, op: Op, e: Error) {
    match e
    case AlreadyInitialized => s.config.Some?
    case NotInitialized => s.config.None? || s.totalSupply == 0
    case Unauthorized =>
      || (op.OpInitialize? && op.admin == CONTRACT) || (op.OpTransfer? && op.from == CONTRACT)
      || (op.OpClaim? && op.holder == CONTRACT) || ((op.OpStake? || op.OpUnstake?) && op.staker == CONTRACT)
    case ZeroBalance => op.OpClaim? && EffectiveBalance(s, op.holder) == 0
    case NoFeesAvailable => op.OpClaim? && Estimate(s, op.holder) <= 0
    case AlreadyStaked => op.OpStake? && op.staker in s.stakes
    case NotStaked => op.OpUnstake? && op.staker !in s.stakes
    case LockNotExpired => op.OpUnstake? && op.staker in s.stakes && s.now < s.stakes[op.staker].lockUntil
    case InvalidAmount => (op.OpTransfer? || op.OpDeposit? || op.OpStake?) && op.amount <= 0
    case InsufficientBalance =>
      || (op.OpTransfer? && Get(s.balances, op.from) < op.amount)
      || (op.OpStake? && Get(s.balances, op.staker) < op.amount)
    case InvalidLockDuration => op.OpStake? && op.lockDuration == 0
    case InsufficientFunds =>
      || (op.OpDeposit? && s.config.Some? && Get(s.usdc, s.config.value.admin) < op.amount)
      || (op.OpClaim? && Get(s.usdc, CONTRACT) < Estimate(s, op.holder))
    case Overflow => true
  }

  /** Every refusal tells the truth. */
  lemma RefusalsTellTheReason(s: Token, op: Op)
    requires Execute(s, op).Err? && !op.OpUsdcActivity?
    ensures Reason(s, op, Execute(s, op).error)
  {
    hide FitsI128, EffectiveBalance, InitialBalances, BoostMultiplier;
  }
}
