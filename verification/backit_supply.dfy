/** The supply of BACKit tokens is conserved, and no holder ever draws more than the
    fees collected up to the holder's own claim snapshot. */
module BackitSupply {
  import opened Basics
  import opened Sums
  import opened Arithmetic
  import opened BackitToken

  ghost function Amounts(stakes: map<Address, StakeRecord>): map<Address, int> {
    map a | a in stakes :: stakes[a].amount
  }

  /** All tokens there are: liquid balances and active stakes. */
  ghost function Held(s: Token): int {
    Sum(s.balances) + Sum(Amounts(s.stakes))
  }

  ghost function Minted(d: Distribution): int {
    Sum(InitialBalances(map[], d))
  }

  predicate Distinct(d: Distribution) {
    && d.team !in {d.community}
    && d.treasury !in {d.community, d.team}
    && d.liquidity !in {d.community, d.team, d.treasury}
    && d.airdrop !in {d.community, d.team, d.treasury, d.liquidity}
  }

  /** The five allocations add up to the supply exactly when no recipient is named
      twice; a repeated recipient loses the earlier allocation. */
  lemma MintedIsTheSupply(d: Distribution)
    ensures Minted(d) <= TOTAL_SUPPLY
    ensures Minted(d) == TOTAL_SUPPLY <==> Distinct(d)
  {
    hide Sum;
    assert Sum<Address>(map[]) == 0 by { SumOfNone(); }
    var m0: map<Address, int> := map[];
    var m1 := m0[d.community := BpsOf(TOTAL_SUPPLY, 4000)];
    var m2 := m1[d.team := BpsOf(TOTAL_SUPPLY, 2000)];
    var m3 := m2[d.treasury := BpsOf(TOTAL_SUPPLY, 1500)];
    var m4 := m3[d.liquidity := BpsOf(TOTAL_SUPPLY, 1500)];
    SumUpdate(m0, d.community, BpsOf(TOTAL_SUPPLY, 4000));
    SumUpdate(m1, d.team, BpsOf(TOTAL_SUPPLY, 2000));
    SumUpdate(m2, d.treasury, BpsOf(TOTAL_SUPPLY, 1500));
    SumUpdate(m3, d.liquidity, BpsOf(TOTAL_SUPPLY, 1500));
    SumUpdate(m4, d.airdrop, BpsOf(TOTAL_SUPPLY, 1000));
  }

  lemma SumOfNone()
    ensures Sum<Address>(map[]) == 0
  {
  }

  predicate NonNegative(m: map<Address, int>) {
    forall a :: a in m ==> m[a] >= 0
  }

  predicate ProperStakes(stakes: map<Address, StakeRecord>) {
    forall a :: a in stakes ==> stakes[a].amount > 0 && 1 <= stakes[a].boost <= 4
  }

  ghost predicate Conserved(s: Token) {
    && NonNegative(s.balances) && ProperStakes(s.stakes)
    && match s.config
       case None => s.totalSupply == 0 && s.balances == map[] && s.stakes == map[]
       case Some(c) => s.totalSupply == TOTAL_SUPPLY && Held(s) == Minted(c.distribution)
  }

  lemma TransferConserves(s: Token, from: Address, to: Address, amount: int)
    requires Conserved(s) && Transfer(s, from, to, amount).Ok?
    ensures Conserved(Transfer(s, from, to, amount).value)
  {
    var debited := s.balances[from := Get(s.balances, from) - amount];
    SumUpdate(s.balances, from, Get(s.balances, from) - amount);
    SumUpdate(debited, to, Get(debited, to) + amount);
  }

  lemma StakeConserves(s: Token, staker: Address, amount: int, lockDuration: nat)
    requires Conserved(s) && StakeBackit(s, staker, amount, lockDuration).Ok?
    ensures Conserved(StakeBackit(s, staker, amount, lockDuration).value)
  {
    var t := StakeBackit(s, staker, amount, lockDuration).value;
    SumUpdate(s.balances, staker, Get(s.balances, staker) - amount);
    SumUpdate(Amounts(s.stakes), staker, amount);
    assert Amounts(t.stakes) == Amounts(s.stakes)[staker := amount];
  }

  lemma UnstakeConserves(s: Token, staker: Address)
    requires Conserved(s) && UnstakeBackit(s, staker).Ok?
    ensures Conserved(UnstakeBackit(s, staker).value)
  {
    var t := UnstakeBackit(s, staker).value;
    var amount := s.stakes[staker].amount;
    SumUpdate(s.balances, staker, Get(s.balances, staker) + amount);
    SumDelete(Amounts(s.stakes), staker);
    assert Amounts(t.stakes) == Amounts(s.stakes) - {staker};
  }

  lemma InitializeConserves(s: Token, admin: Address, d: Distribution)
    requires Conserved(s) && Initialize(s, admin, d).Ok?
    ensures Conserved(Initialize(s, admin, d).value)
  {
    hide FitsI128;
    assert Amounts(s.stakes) == map[];
  }

  lemma StepConserves(s: Token, op: Op)
    requires Conserved(s)
    ensures Conserved(Next(s, op))
  {
    hide Conserved, SendUsdc, Estimate, EffectiveBalance, InitialBalances;
    if Execute(s, op).Ok? {
      match op
      case OpInitialize(admin, d) => InitializeConserves(s, admin, d);
      case OpTransfer(from, to, amount) => TransferConserves(s, from, to, amount);
      case OpStake(staker, amount, lockDuration) => StakeConserves(s, staker, amount, lockDuration);
      case OpUnstake(staker) => UnstakeConserves(s, staker);
      case _ => SameTokensConserve(s, Next(s, op));
    }
  }

  lemma SameTokensConserve(s: Token, t: Token)
    requires Conserved(s)
    requires t.config == s.config && t.totalSupply == s.totalSupply && t.balances == s.balances && t.stakes == s.stakes
    ensures Conserved(t)
  {
  }

  lemma {:induction false} RunConserves(s: Token, ops: seq<Op>)
    requires Deployed(s)
    ensures Conserved(Run(s, ops))
  {
    hide Conserved, Next;
    if ops != [] {
      RunConserves(s, ops[..|ops| - 1]);
      StepConserves(Run(s, ops[..|ops| - 1]), ops[|ops| - 1]);
    } else {
      DeployedConserves(s);
    }
  }

  lemma DeployedConserves(s: Token)
    requires Deployed(s)
    ensures Conserved(s)
  {
  }

  /** In every state reachable after initialisation the tokens held are the tokens
      minted: the whole supply if the five recipients were distinct, less otherwise. */
  lemma SupplyIsConserved(s: Token, ops: seq<Op>)
    requires Deployed(s) && Run(s, ops).config.Some?
    ensures var t := Run(s, ops);
      && t.totalSupply == TOTAL_SUPPLY
      && Held(t) <= TOTAL_SUPPLY
      && (Held(t) == TOTAL_SUPPLY <==> Distinct(t.config.value.distribution))
  {
    RunConserves(s, ops);
    MintedIsTheSupply(Run(s, ops).config.value.distribution);
  }

  /** Conservation is what bounds a single weight: liquid balances cannot exceed the
      supply, and the cap bounds the boosted stakes. */
  lemma WeightWithinSupply(s: Token, holder: Address)
    requires Conserved(s)
    ensures 0 <= EffectiveBalance(s, holder) <= s.totalSupply
  {
    if s.config.Some? {
      MintedIsTheSupply(s.config.value.distribution);
      SumNonNegative(Amounts(s.stakes));
      SumBoundsEntry(s.balances, holder);
      if holder in s.stakes {
        var record := s.stakes[holder];
        MulMonotone(0, record.amount * 2, record.boost);
      }
    }
  }

  /** A claim never pays more than the fees collected since the holder's snapshot. */
  lemma ShareWithinNewFees(s: Token, holder: Address)
    requires Conserved(s)
    ensures 0 <= Estimate(s, holder) <= Max(0, s.totalFees - Get(s.lastClaim, holder))
  {
    hide Conserved, EffectiveBalance;
    var weight, fees, supply := EffectiveBalance(s, holder), s.totalFees - Get(s.lastClaim, holder), s.totalSupply;
    WeightWithinSupply(s, holder);
    if supply != 0 && fees > 0 {
      MulMonotone(0, weight, fees);
      MulMonotone(weight, supply, fees);
      DivMonotone(0, fees * weight, supply);
      DivMonotone(fees * weight, fees * supply, supply);
      DivExact(fees, supply);
    }
  }

  /** What one transaction pays the holder, read off the distribution counter. */
  function PaidTo(s: Token, op: Op, holder: Address): int {
    if op == OpClaim(holder) then Next(s, op).totalDistributed - s.totalDistributed else 0
  }

  function ClaimedBy(s: Token, ops: seq<Op>, holder: Address): int {
    if ops == [] then 0
    else
      var before := Run(s, ops[..|ops| - 1]);
      ClaimedBy(s, ops[..|ops| - 1], holder) + PaidTo(before, ops[|ops| - 1], holder)
  }

  ghost predicate SnapshotsInPast(s: Token) {
    s.totalFees >= 0 && forall a :: 0 <= Get(s.lastClaim, a) <= s.totalFees
  }

  /** Over any step, the snapshot of a holder grows by at least what the holder is
      paid, and never past the fees collected. */
  lemma StepKeepsSnapshots(s: Token, op: Op, holder: Address)
    requires Conserved(s) && SnapshotsInPast(s)
    ensures SnapshotsInPast(Next(s, op))
    ensures 0 <= PaidTo(s, op, holder) <= Get(Next(s, op).lastClaim, holder) - Get(s.lastClaim, holder)
  {
    hide Conserved, EffectiveBalance, Estimate, InitialBalances, FitsI128, BoostMultiplier;
    if op == OpClaim(holder) {
      ShareWithinNewFees(s, holder);
    }
    var t := Next(s, op);
    assert t.totalFees >= s.totalFees;
    forall a ensures 0 <= Get(s.lastClaim, a) <= Get(t.lastClaim, a) <= t.totalFees {
      assert 0 <= Get(s.lastClaim, a) <= s.totalFees;
    }
  }

  /** Per holder, in every run whatsoever: what has been claimed is at most the claim
      snapshot, which is at most the fees collected. */
  lemma {:induction false} ClaimsWithinSnapshot(s: Token, ops: seq<Op>, holder: Address)
    requires Deployed(s)
    ensures SnapshotsInPast(Run(s, ops))
    ensures 0 <= ClaimedBy(s, ops, holder) <= Get(Run(s, ops).lastClaim, holder) <= Run(s, ops).totalFees
  {
    hide Next, PaidTo, Conserved;
    if ops != [] {
      var prior := Run(s, ops[..|ops| - 1]);
      ClaimsWithinSnapshot(s, ops[..|ops| - 1], holder);
      RunConserves(s, ops[..|ops| - 1]);
      StepKeepsSnapshots(prior, ops[|ops| - 1], holder);
    }
  }

  /** A holder who has just claimed has nothing more to claim. */
  lemma ClaimIsSpent(s: Token, holder: Address)
    requires ClaimRevenueShare(s, holder).Ok?
    ensures Estimate(ClaimRevenueShare(s, holder).value, holder) == 0
    ensures ClaimRevenueShare(ClaimRevenueShare(s, holder).value, holder) == Err(NoFeesAvailable)
  {
    hide FitsI128, SendUsdc;
  }
}
