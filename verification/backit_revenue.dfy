/** Revenue sharing while balances and stakes stay as they are: whether the fee pool
    can always pay, how much is distributed, and how much rounding leaves behind. */
module BackitRevenue {
  import opened Basics
  import opened Sums
  import opened Arithmetic
  import opened BackitToken
  import opened BackitSupply

  /** Transactions that move fees but no BACKit tokens. */
  predicate FeeOp(op: Op) {
    op.OpDeposit? || op.OpClaim? || op.OpClock? || op.OpUsdcActivity?
  }

  predicate FeeOps(ops: seq<Op>) {
    forall op :: op in ops ==> FeeOp(op)
  }

  function Holders(s: Token): set<Address> {
    s.balances.Keys + s.stakes.Keys - {CONTRACT}
  }

  /** The weights of everyone who can claim. */
  function Weights(s: Token): map<Address, int> {
    map a | a in Holders(s) :: EffectiveBalance(s, a)
  }

  ghost function TotalWeight(s: Token): int {
    Sum(Weights(s))
  }

  /** What each holder has drawn on so far, before rounding and in units of one
      supply-th: the weight times the snapshot. */
  function Earned(s: Token): map<Address, int> {
    map a | a in Holders(s) :: EffectiveBalance(s, a) * Get(s.lastClaim, a)
  }

  /** The same if the holder's snapshot were brought up to date. */
  function EarnedWith(s: Token, holder: Address): map<Address, int> {
    Earned(s)[holder := EffectiveBalance(s, holder) * s.totalFees]
  }

  function InSupplies(x: int): int {
    x * 1_000_000_000_000_000
  }

  // ---- The pool holds what has not been distributed ----

  predicate Solvent(s: Token) {
    && Get(s.usdc, CONTRACT) >= s.totalFees - s.totalDistributed
    && (s.config.Some? ==> s.config.value.admin != CONTRACT)
    && (s.totalFees == 0 ==> s.totalDistributed == 0)
    && (s.config.None? ==> s.totalFees == 0)
  }

  lemma StepKeepsSolvent(s: Token, op: Op)
    requires Solvent(s) && SnapshotsInPast(s)
    ensures Solvent(Next(s, op))
  {
    hide FitsI128, EffectiveBalance, Estimate, InitialBalances, BoostMultiplier;
    if op.OpClaim? {
      assert 0 <= Get(s.lastClaim, op.holder) <= s.totalFees;
    }
  }

  /** Every run: the contract's USDC covers the fees not yet distributed. */
  lemma {:induction false} PoolCoversUndistributed(s: Token, ops: seq<Op>)
    requires Deployed(s)
    ensures Solvent(Run(s, ops))
  {
    hide Next, Conserved;
    if ops != [] {
      var prior := ops[..|ops| - 1];
      PoolCoversUndistributed(s, prior);
      ClaimsWithinSnapshot(s, prior, CONTRACT);
      StepKeepsSolvent(Run(s, prior), ops[|ops| - 1]);
    }
  }

  /** What every transaction keeps. */
  ghost predicate Sound(s: Token) {
    Conserved(s) && SnapshotsInPast(s) && Solvent(s)
  }

  lemma StepKeepsSound(s: Token, op: Op)
    requires Sound(s)
    ensures Sound(Next(s, op))
  {
    hide Conserved, SnapshotsInPast, Solvent, Next;
    StepConserves(s, op);
    StepKeepsSnapshots(s, op, CONTRACT);
    StepKeepsSolvent(s, op);
  }

  // ---- One step ----

  /** Nothing that decides a weight differs. */
  predicate SameTokens(s: Token, t: Token) {
    t.config == s.config && t.totalSupply == s.totalSupply && t.balances == s.balances && t.stakes == s.stakes
  }

  /** A successful claim moves the holder's entry up to date. */
  lemma ClaimEarns(s: Token, holder: Address)
    requires ClaimRevenueShare(s, holder).Ok?
    ensures var t := ClaimRevenueShare(s, holder).value;
      && SameTokens(s, t) && t.totalFees == s.totalFees && holder in Holders(s)
      && Earned(t) == EarnedWith(s, holder)
      && t.totalDistributed == s.totalDistributed + Estimate(s, holder)
  {
    hide FitsI128, SendUsdc, Estimate;
    var t := ClaimRevenueShare(s, holder).value;
    assert Holders(t) == Holders(s);
    assert forall a :: EffectiveBalance(t, a) == EffectiveBalance(s, a);
  }

  /** The payment is the holder's new entitlement, less than one unit rounded off. */
  lemma ShareRounds(s: Token, holder: Address)
    requires Conserved(s) && s.config.Some?
    requires s.totalFees >= Get(s.lastClaim, holder)
    ensures var due := EffectiveBalance(s, holder) * s.totalFees
                       - EffectiveBalance(s, holder) * Get(s.lastClaim, holder);
      due - 999_999_999_999_999 <= InSupplies(Estimate(s, holder)) <= due
  {
    hide EffectiveBalance;
    var weight, last, fees := EffectiveBalance(s, holder), Get(s.lastClaim, holder), s.totalFees;
    WeightWithinSupply(s, holder);
    assert (fees - last) * weight == weight * fees - weight * last;
    DivBounds((fees - last) * weight, 1_000_000_000_000_000);
  }

  /** The books of distribution: what is paid out, against what the snapshots say. */
  ghost predicate Books(s: Token, claims: nat) {
    InSupplies(s.totalDistributed) <= Sum(Earned(s)) <= InSupplies(s.totalDistributed) + claims * 999_999_999_999_999
  }

  lemma ClaimKeepsBooks(s: Token, holder: Address, claims: nat)
    requires Conserved(s) && SnapshotsInPast(s) && s.config.Some? && Books(s, claims)
    requires ClaimRevenueShare(s, holder).Ok?
    ensures Books(ClaimRevenueShare(s, holder).value, claims + 1)
  {
    hide Conserved, EffectiveBalance, Estimate, ClaimRevenueShare, SnapshotsInPast;
    ClaimEarns(s, holder);
    assert s.totalFees >= Get(s.lastClaim, holder) by { Snapshot(s, holder); }
    ShareRounds(s, holder);
    SumUpdate(Earned(s), holder, EffectiveBalance(s, holder) * s.totalFees);
  }

  lemma Snapshot(s: Token, holder: Address)
    requires SnapshotsInPast(s)
    ensures 0 <= Get(s.lastClaim, holder) <= s.totalFees
  {
  }

  lemma OtherFeeOpKeepsBooks(s: Token, op: Op, claims: nat)
    requires FeeOp(op) && !op.OpClaim? && Books(s, claims)
    ensures SameTokens(s, Next(s, op)) && Books(Next(s, op), claims)
  {
    hide FitsI128, SendUsdc;
    assert Earned(Next(s, op)) == Earned(s);
  }

  /** The number of claims in a run that paid. */
  function Claims(s: Token, ops: seq<Op>): nat {
    if ops == [] then 0
    else
      var op := ops[|ops| - 1];
      Claims(s, ops[..|ops| - 1])
      + if op.OpClaim? && Execute(Run(s, ops[..|ops| - 1]), op).Ok? then 1 else 0
  }

  // ---- Runs ----

  /** A state before the first fee arrives, in which everything else may have happened. */
  ghost predicate BeforeFees(s: Token) {
    Conserved(s) && SnapshotsInPast(s) && Solvent(s) && s.config.Some? && s.totalFees == 0
  }

  lemma ReachableBeforeFees(s: Token, ops: seq<Op>)
    requires Deployed(s) && Run(s, ops).config.Some? && Run(s, ops).totalFees == 0
    ensures BeforeFees(Run(s, ops))
  {
    RunConserves(s, ops);
    ClaimsWithinSnapshot(s, ops, CONTRACT);
    PoolCoversUndistributed(s, ops);
  }

  lemma NothingEarnedYet(s: Token)
    requires BeforeFees(s)
    ensures Books(s, 0)
  {
    forall a | a in Earned(s) ensures Earned(s)[a] == Weights(s)[a] * 0 {
      Snapshot(s, a);
    }
    SumScale(Weights(s), Earned(s), 0);
  }

  lemma FeeStep(s: Token, op: Op, claims: nat)
    requires FeeOp(op) && Conserved(s) && SnapshotsInPast(s) && s.config.Some? && Books(s, claims)
    ensures SameTokens(s, Next(s, op))
    ensures Books(Next(s, op), claims + if op.OpClaim? && Execute(s, op).Ok? then 1 else 0)
  {
    hide Conserved, Books, SnapshotsInPast, ClaimRevenueShare;
    if op.OpClaim? {
      if Execute(s, op).Ok? {
        ClaimKeepsBooks(s, op.holder, claims);
        ClaimEarns(s, op.holder);
      }
    } else {
      OtherFeeOpKeepsBooks(s, op, claims);
    }
  }

  lemma {:induction false} FeeRun(s: Token, ops: seq<Op>)
    requires BeforeFees(s) && FeeOps(ops)
    ensures var t := Run(s, ops);
      SameTokens(s, t) && Conserved(t) && SnapshotsInPast(t) && Solvent(t) && Books(t, Claims(s, ops))
  {
    hide Conserved, Books, SnapshotsInPast, Solvent, Next, Execute;
    if ops == [] {
      FeeRunBase(s);
    } else {
      var prior, op := ops[..|ops| - 1], ops[|ops| - 1];
      assert forall o :: o in prior ==> o in ops;
      FeeRun(s, prior);
      var before := Run(s, prior);
      assert before.config.Some?;
      StepConserves(before, op);
      StepKeepsSnapshots(before, op, CONTRACT);
      StepKeepsSolvent(before, op);
      FeeStep(before, op, Claims(s, prior));
    }
  }

  lemma FeeRunBase(s: Token)
    requires BeforeFees(s)
    ensures Conserved(s) && SnapshotsInPast(s) && Solvent(s) && Books(s, 0) && s.config.Some?
  {
    NothingEarnedYet(s);
  }

  /** However the snapshots stand, and even if one more holder claims, the entitlements
      add up to at most the total weight times the fees. */
  lemma EarnedWithinFees(s: Token, holder: Address)
    requires Conserved(s) && SnapshotsInPast(s)
    ensures Sum(Earned(s)) <= TotalWeight(s) * s.totalFees
    ensures holder in Holders(s) ==> Sum(EarnedWith(s, holder)) <= TotalWeight(s) * s.totalFees
  {
    hide Conserved, EffectiveBalance, SnapshotsInPast;
    var full := map a | a in Holders(s) :: EffectiveBalance(s, a) * s.totalFees;
    SumScale(Weights(s), full, s.totalFees);
    forall a | a in Holders(s) ensures Earned(s)[a] <= full[a] {
      Snapshot(s, a);
      WeightWithinSupply(s, a);
      MulMonotone(Get(s.lastClaim, a), s.totalFees, EffectiveBalance(s, a));
    }
    SumMonotone(Earned(s), full);
    if holder in Holders(s) {
      SumMonotone(EarnedWith(s, holder), full);
    }
  }

  /** The total weight is unchanged in a fee run. */
  lemma SameWeight(s: Token, t: Token)
    requires SameTokens(s, t)
    ensures TotalWeight(t) == TotalWeight(s) && Holders(t) == Holders(s)
  {
    assert Weights(t) == Weights(s);
  }

  /** With weights within the supply, deposits and claims in any order never distribute
      more than was collected, although each claim is rounded on its own. */
  lemma DistributedWithinFees(s: Token, ops: seq<Op>)
    requires BeforeFees(s) && FeeOps(ops) && TotalWeight(s) <= 1_000_000_000_000_000
    ensures Run(s, ops).totalDistributed <= Run(s, ops).totalFees
  {
    hide Conserved, SnapshotsInPast, Next, Earned;
    var t := Run(s, ops);
    FeeRun(s, ops);
    Snapshot(t, CONTRACT);
    SameWeight(s, t);
    EarnedWithinFees(t, CONTRACT);
    MulMonotone(TotalWeight(s), 1_000_000_000_000_000, t.totalFees);
  }

  /** ... and whatever a holder is owed next is in the pool. */
  lemma ClaimIsCovered(s: Token, ops: seq<Op>, holder: Address)
    requires BeforeFees(s) && FeeOps(ops) && TotalWeight(s) <= 1_000_000_000_000_000
    ensures var t := Run(s, ops);
      holder != CONTRACT ==> Estimate(t, holder) <= t.totalFees - t.totalDistributed <= Get(t.usdc, CONTRACT)
  {
    hide Conserved, SnapshotsInPast, Next, EffectiveBalance, Estimate, Run;
    var t := Run(s, ops);
    FeeRun(s, ops);
    Snapshot(t, holder);
    SameWeight(s, t);
    EarnedWithinFees(t, holder);
    MulMonotone(TotalWeight(s), 1_000_000_000_000_000, t.totalFees);
    if holder in Holders(t) {
      ShareRounds(t, holder);
      SumUpdate(Earned(t), holder, EffectiveBalance(t, holder) * t.totalFees);
    } else if holder != CONTRACT {
      NoWeight(t, holder);
      DistributedWithinFees(s, ops);
    }
  }

  lemma NoWeight(s: Token, holder: Address)
    requires holder !in Holders(s) && holder != CONTRACT
    ensures EffectiveBalance(s, holder) == 0 && Estimate(s, holder) == 0
  {
  }

  /** Once every snapshot is current, a fully weighted pool keeps back less than one
      unit for each claim that was paid. */
  lemma DustIsBounded(s: Token, ops: seq<Op>)
    requires BeforeFees(s) && FeeOps(ops) && TotalWeight(s) == 1_000_000_000_000_000
    requires forall a :: a in Holders(s) ==> Get(Run(s, ops).lastClaim, a) == Run(s, ops).totalFees
    ensures var t := Run(s, ops);
      0 <= t.totalFees - t.totalDistributed <= Max(0, Claims(s, ops) - 1)
  {
    hide Conserved, SnapshotsInPast, Next, EffectiveBalance, Run, Claims;
    var t := Run(s, ops);
    FeeRun(s, ops);
    SameWeight(s, t);
    SumScale(Weights(t), Earned(t), t.totalFees);
    DistributedWithinFees(s, ops);
  }

  /** Without stakes, the weights are the liquid balances of everyone but the contract
      itself, which cannot claim, and they fit the supply. */
  lemma UnstakedWeights(s: Token)
    requires Conserved(s) && s.stakes == map[]
    ensures TotalWeight(s) == Held(s) - Get(s.balances, CONTRACT)
    ensures TotalWeight(s) <= TOTAL_SUPPLY
  {
    assert Weights(s) == s.balances - {CONTRACT};
    SumDelete(s.balances, CONTRACT);
    assert Amounts(s.stakes) == map[];
    if s.config.Some? {
      MintedIsTheSupply(s.config.value.distribution);
    }
  }

  /** From deployment through initialisation and any transfers to every run of deposits and
      claims: if nobody holds a stake when the first fee arrives, no more is ever
      distributed than collected, and every claim finds its payment in the pool. */
  lemma FeeRunsFromDeployment(s: Token, setup: seq<Op>, ops: seq<Op>, holder: Address)
    requires Deployed(s) && FeeOps(ops)
    requires var u := Run(s, setup); u.config.Some? && u.totalFees == 0 && u.stakes == map[]
    ensures var t := Run(s, setup + ops);
      t.totalDistributed <= t.totalFees && !RunsDry(t, holder)
  {
    hide Conserved, BeforeFees, Next, RunsDry, TotalWeight, FeeOps;
    var u := Run(s, setup);
    ReachableBeforeFees(s, setup);
    RunConserves(s, setup);
    UnstakedWeights(u);
    RunConcat(s, setup, ops);
    DistributedWithinFees(u, ops);
    ClaimIsCovered(u, ops, holder);
    CoveredIsPaid(Run(u, ops), holder);
  }

  // ---- The condition is exact ----

  /** A claim refused only because the pool cannot pay it. */
  predicate RunsDry(s: Token, holder: Address) {
    ClaimRevenueShare(s, holder) == Err(InsufficientFunds)
  }

  lemma {:induction false} RunConcat(s: Token, a: seq<Op>, b: seq<Op>)
    ensures Run(s, a + b) == Run(Run(s, a), b)
  {
    hide Next;
    if b == [] {
      assert a + b == a;
    } else {
      RunConcat(s, a, b[..|b| - 1]);
      assert (a + b)[..|a + b| - 1] == a + b[..|b| - 1];
    }
  }

  function WeightsOf(s: Token, holders: set<Address>): map<Address, int> {
    map a | a in holders :: EffectiveBalance(s, a)
  }

  /** The first fees, equal to the supply, lie in the pool; these holders have not
      claimed and weigh more together than the pool holds. */
  ghost predicate Overdrawn(s: Token, holders: set<Address>) {
    && Conserved(s) && s.config.Some? && CONTRACT !in holders
    && s.totalFees == 1_000_000_000_000_000 && s.totalDistributed >= 0
    && 0 <= Get(s.usdc, CONTRACT) == s.totalFees - s.totalDistributed
    && (forall a :: a in holders ==> Get(s.lastClaim, a) == 0)
    && Sum(WeightsOf(s, holders)) > Get(s.usdc, CONTRACT)
  }

  /** A holder who has not claimed is owed exactly its weight. */
  lemma OwedItsWeight(s: Token, holder: Address)
    requires Conserved(s) && s.config.Some?
    requires s.totalFees == 1_000_000_000_000_000 && Get(s.lastClaim, holder) == 0
    ensures Estimate(s, holder) == EffectiveBalance(s, holder)
  {
    hide EffectiveBalance, Conserved;
    assert s.totalSupply == 1_000_000_000_000_000 by { SupplyIsSet(s); }
    DivExact(EffectiveBalance(s, holder), 1_000_000_000_000_000);
  }

  lemma SupplyIsSet(s: Token)
    requires Conserved(s) && s.config.Some?
    ensures s.totalSupply == 1_000_000_000_000_000
  {
  }

  /** One such holder claims, after having spent any USDC of its own: the pool either
      cannot pay, or is left overdrawn by the others. */
  lemma OneClaims(s: Token, holders: set<Address>, holder: Address)
    requires Overdrawn(s, holders) && holder in holders && EffectiveBalance(s, holder) > 0
    ensures var t := Next(s, OpUsdcActivity(holder, 0));
      RunsDry(t, holder) || Overdrawn(Next(t, OpClaim(holder)), holders - {holder})
  {
    hide EffectiveBalance, Estimate, Conserved;
    var t := Next(s, OpUsdcActivity(holder, 0));
    var weight := EffectiveBalance(s, holder);
    assert EffectiveBalance(t, holder) == weight by { SameTokensSameWeights(s, t); }
    SameTokensConserve(s, t);
    OwedItsWeight(t, holder);
    WeightWithinSupply(s, holder);
    SupplyIsSet(s);
    if !RunsDry(t, holder) {
      assert ClaimRevenueShare(t, holder).Ok?;
      var u := Next(t, OpClaim(holder));
      SameTokensConserve(s, u);
      SameTokensSameWeights(s, u);
      SumRemove(WeightsOf(s, holders), holder);
      assert WeightsOf(u, holders - {holder}) == WeightsOf(s, holders) - {holder};
    }
  }

  lemma SameTokensSameWeights(s: Token, t: Token)
    requires SameTokens(s, t)
    ensures forall a :: EffectiveBalance(t, a) == EffectiveBalance(s, a)
  {
  }

  lemma {:induction false} ClaimUntilDry(s: Token, holders: set<Address>) returns (ops: seq<Op>, victim: Address)
    requires Overdrawn(s, holders)
    ensures FeeOps(ops) && RunsDry(Run(s, ops), victim)
    decreases |holders|
  {
    hide Conserved, EffectiveBalance, Next, RunsDry, Overdrawn;
    assert Sum(WeightsOf(s, holders)) > 0 by { OverdrawnWeights(s, holders); }
    var holder :| holder in holders;
    WeightOrNone(s, holders, holder);
    if EffectiveBalance(s, holder) == 0 {
      ops, victim := ClaimUntilDry(s, holders - {holder});
    } else {
      var empty := [OpUsdcActivity(holder, 0)];
      var t := Next(s, empty[0]);
      assert Run(s, empty) == t by { assert empty[..0] == []; }
      OneClaims(s, holders, holder);
      if RunsDry(t, holder) {
        return empty, holder;
      }
      var claim := empty + [OpClaim(holder)];
      assert claim[..1] == empty;
      assert Run(s, claim) == Next(t, OpClaim(holder));
      var rest, found := ClaimUntilDry(Next(t, OpClaim(holder)), holders - {holder});
      RunConcat(s, claim, rest);
      ops, victim := claim + rest, found;
    }
  }

  lemma OverdrawnWeights(s: Token, holders: set<Address>)
    requires Overdrawn(s, holders)
    ensures Sum(WeightsOf(s, holders)) > 0
  {
  }

  lemma WeightOrNone(s: Token, holders: set<Address>, holder: Address)
    requires Overdrawn(s, holders) && holder in holders
    ensures EffectiveBalance(s, holder) >= 0
    ensures EffectiveBalance(s, holder) == 0 ==> Overdrawn(s, holders - {holder})
  {
    hide EffectiveBalance, Conserved;
    WeightWithinSupply(s, holder);
    SumRemove(WeightsOf(s, holders), holder);
    assert WeightsOf(s, holders - {holder}) == WeightsOf(s, holders) - {holder};
  }

  /** The admin receives USDC worth the supply and deposits it. */
  lemma FirstDeposit(s: Token)
    requires BeforeFees(s) && Get(s.usdc, CONTRACT) == 0 && TotalWeight(s) > 1_000_000_000_000_000
    ensures var funded := Next(s, OpUsdcActivity(s.config.value.admin, 1_000_000_000_000_000));
      Overdrawn(Next(funded, OpDeposit(1_000_000_000_000_000)), Holders(s))
  {
    hide EffectiveBalance, Conserved;
    var funded := Next(s, OpUsdcActivity(s.config.value.admin, 1_000_000_000_000_000));
    var t := Next(funded, OpDeposit(1_000_000_000_000_000));
    assert t.totalFees == 1_000_000_000_000_000;
    SameTokensConserve(s, t);
    SameTokensSameWeights(s, t);
    assert WeightsOf(t, Holders(s)) == Weights(s);
    forall a | a in Holders(s) ensures Get(t.lastClaim, a) == 0 {
      Snapshot(s, a);
    }
  }

  lemma OverweightRunsDry(s: Token) returns (ops: seq<Op>, victim: Address)
    requires BeforeFees(s) && Get(s.usdc, CONTRACT) == 0 && TotalWeight(s) > 1_000_000_000_000_000
    ensures FeeOps(ops) && RunsDry(Run(s, ops), victim)
  {
    hide BeforeFees, Overdrawn, Next, RunsDry, Holders, TotalWeight;
    assert s.config.Some? by { ConfiguredBeforeFees(s); }
    var fund := OpUsdcActivity(s.config.value.admin, 1_000_000_000_000_000);
    var deposit := OpDeposit(1_000_000_000_000_000);
    FirstDeposit(s);
    assert [fund, deposit][..1] == [fund] && [fund][..0] == [];
    assert Run(s, [fund]) == Next(s, fund);
    assert Run(s, [fund, deposit]) == Next(Next(s, fund), deposit);
    var rest, found := ClaimUntilDry(Next(Next(s, fund), deposit), Holders(s));
    RunConcat(s, [fund, deposit], rest);
    ops, victim := [fund, deposit] + rest, found;
  }

  lemma ConfiguredBeforeFees(s: Token)
    requires BeforeFees(s)
    ensures s.config.Some?
  {
  }

  /** The exact condition under which the pool pays every claim in every run of
      deposits and claims: the weights add up to at most the supply. */
  lemma PoolAlwaysPaysIff(s: Token)
    requires BeforeFees(s) && Get(s.usdc, CONTRACT) == 0
    ensures (forall ops, holder :: FeeOps(ops) ==> !RunsDry(Run(s, ops), holder))
            <==> TotalWeight(s) <= 1_000_000_000_000_000
  {
    hide BeforeFees, TotalWeight, Run, RunsDry, FeeOps;
    if TotalWeight(s) <= 1_000_000_000_000_000 {
      forall ops, holder | FeeOps(ops) ensures !RunsDry(Run(s, ops), holder) {
        ClaimIsCovered(s, ops, holder);
        CoveredIsPaid(Run(s, ops), holder);
      }
    } else {
      var ops, victim := OverweightRunsDry(s);
    }
  }

  lemma CoveredIsPaid(s: Token, holder: Address)
    requires holder != CONTRACT ==> Estimate(s, holder) <= Get(s.usdc, CONTRACT)
    ensures !RunsDry(s, holder)
  {
    hide FitsI128, EffectiveBalance, Estimate;
  }
}
