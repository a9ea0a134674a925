/** The token as its entry points execute it. */
module BackitTokenContract {
  import opened Basics
  import opened BackitToken
  import opened BackitSupply
  import opened BackitRevenue

  class Contract {
    var now: nat
    var config: Option<Config>
    var totalSupply: int
    var balances: map<Address, int>
    var stakes: map<Address, StakeRecord>
    var lastClaim: map<Address, int>
    var totalFees: int
    var totalDistributed: int
    var usdc: map<Address, int>

    function State(): Token
      reads this
    {
      Token(now, config, totalSupply, balances, stakes, lastClaim, totalFees, totalDistributed, usdc)
    }

    /** The supply is conserved, no claim snapshot lies ahead of the fees, and the contract
        holds the USDC not yet distributed. */
    ghost predicate Valid()
      reads this
    {
      Sound(State())
    }

    constructor (now: nat, usdc: map<Address, int>)
      requires Get(usdc, CONTRACT) >= 0
      ensures Valid() && Deployed(State()) && this.now == now && this.usdc == usdc
    {
      this.now, this.usdc := now, usdc;
      config, totalSupply, totalFees, totalDistributed := None, 0, 0, 0;
      balances, stakes, lastClaim := map[], map[], map[];
      new;
      DeployedConserves(State());
    }

    method SetBalance(account: Address, amount: int)
      modifies this`balances
      ensures balances == old(balances)[account := amount]
    {
      balances := balances[account := amount];
    }

    method TransferUsdc(from: Address, to: Address, amount: int) returns (r: Result<(), Error>)
      modifies this`usdc
      ensures match r
        case Ok(_) => SendUsdc(old(usdc), from, to, amount) == Ok(usdc)
        case Err(e) => SendUsdc(old(usdc), from, to, amount) == Err(e) && usdc == old(usdc)
    {
      var available := Get(usdc, from);
      if available < amount { return Err(InsufficientFunds); }
      var before := usdc;
      usdc := usdc[from := available - amount];
      var received := Get(usdc, to) + amount;
      if !FitsI128(received) {
        usdc := before;
        return Err(Overflow);
      }
      usdc := usdc[to := received];
      r := Ok(());
    }

    method Initialize(admin: Address, d: Distribution) returns (r: Result<(), Error>)
      requires Valid()
      modifies this
      ensures Valid()
      ensures Follows(BackitToken.Initialize(old(State()), admin, d), old(State()), State(), r)
    {
      hide Sound;
      StepKeepsSound(State(), OpInitialize(admin, d));
      if config.Some? { return Err(AlreadyInitialized); }
      if admin == CONTRACT { return Err(Unauthorized); }
      var communityAmount := BpsOf(TOTAL_SUPPLY, 4000);
      var teamAmount := BpsOf(TOTAL_SUPPLY, 2000);
      var treasuryAmount := BpsOf(TOTAL_SUPPLY, 1500);
      var liquidityAmount := BpsOf(TOTAL_SUPPLY, 1500);
      var airdropAmount := BpsOf(TOTAL_SUPPLY, 1000);
      SetBalance(d.community, communityAmount);
      SetBalance(d.team, teamAmount);
      SetBalance(d.treasury, treasuryAmount);
      SetBalance(d.liquidity, liquidityAmount);
      SetBalance(d.airdrop, airdropAmount);
      totalSupply := TOTAL_SUPPLY;
      config := Some(Config(admin, d));
      r := Ok(());
    }

    method Transfer(from: Address, to: Address, amount: int) returns (r: Result<(), Error>)
      requires Valid()
      modifies this`balances
      ensures Valid()
      ensures Follows(BackitToken.Transfer(old(State()), from, to, amount), old(State()), State(), r)
    {
      hide Sound;
      StepKeepsSound(State(), OpTransfer(from, to, amount));
      if amount <= 0 { return Err(InvalidAmount); }
      if from == CONTRACT { return Err(Unauthorized); }
      var fromBalance := Get(balances, from);
      if fromBalance < amount { return Err(InsufficientBalance); }
      var before := balances;
      SetBalance(from, fromBalance - amount);
      var toBalance := Get(balances, to);
      if !FitsI128(toBalance + amount) {
        balances := before;
        return Err(Overflow);
      }
      SetBalance(to, toBalance + amount);
      r := Ok(());
    }

    method FeePoolDeposit(amount: int) returns (r: Result<(), Error>)
      requires Valid()
      modifies this`usdc, this`totalFees
      ensures Valid()
      ensures Follows(BackitToken.FeePoolDeposit(old(State()), amount), old(State()), State(), r)
    {
      hide Sound;
      StepKeepsSound(State(), OpDeposit(amount));
      if amount <= 0 { return Err(InvalidAmount); }
      if config.None? { return Err(NotInitialized); }
      var before := usdc;
      var paid := TransferUsdc(config.value.admin, CONTRACT, amount);
      if paid.Err? { return Err(paid.error); }
      var newTotal := totalFees + amount;
      if !FitsI128(newTotal) {
        usdc := before;
        return Err(Overflow);
      }
      totalFees := newTotal;
      r := Ok(());
    }

    /** Pays what the estimate promises. The books are written before the transfer, and
        a refused transfer aborts the transaction, which undoes them. */
    method ClaimRevenueShare(holder: Address) returns (r: Result<int, Error>)
      requires Valid()
      modifies this`lastClaim, this`totalDistributed, this`usdc
      ensures Valid()
      ensures Follows(BackitToken.ClaimRevenueShare(old(State()), holder), old(State()), State(), r)
      ensures r.Ok? ==> r.value == Estimate(old(State()), holder) > 0
    {
      hide Sound;
      StepKeepsSound(State(), OpClaim(holder));
      if holder == CONTRACT { return Err(Unauthorized); }
      if config.None? || totalSupply == 0 { return Err(NotInitialized); }
      var effectiveBalance := EffectiveBalance(State(), holder);
      if effectiveBalance == 0 { return Err(ZeroBalance); }
      var feesSinceLast := totalFees - Get(lastClaim, holder);
      if feesSinceLast <= 0 { return Err(NoFeesAvailable); }
      if !FitsI128(feesSinceLast * effectiveBalance) { return Err(Overflow); }
      var share := feesSinceLast * effectiveBalance / totalSupply;
      if share <= 0 { return Err(NoFeesAvailable); }
      if !FitsI128(totalDistributed + share) { return Err(Overflow); }
      var lastClaimBefore, distributedBefore := lastClaim, totalDistributed;
      lastClaim := lastClaim[holder := totalFees];
      totalDistributed := totalDistributed + share;
      var paid := TransferUsdc(CONTRACT, holder, share);
      if paid.Err? {
        lastClaim, totalDistributed := lastClaimBefore, distributedBefore;
        return Err(paid.error);
      }
      r := Ok(share);
    }

    method StakeBackit(staker: Address, amount: int, lockDuration: nat) returns (r: Result<(), Error>)
      requires Valid()
      modifies this`balances, this`stakes, this`lastClaim
      ensures Valid()
      ensures Follows(BackitToken.StakeBackit(old(State()), staker, amount, lockDuration), old(State()), State(), r)
    {
      hide Sound;
      StepKeepsSound(State(), OpStake(staker, amount, lockDuration));
      if staker == CONTRACT { return Err(Unauthorized); }
      if config.None? { return Err(NotInitialized); }
      if amount <= 0 { return Err(InvalidAmount); }
      if lockDuration == 0 { return Err(InvalidLockDuration); }
      if staker in stakes { return Err(AlreadyStaked); }
      var balance := Get(balances, staker);
      if balance < amount { return Err(InsufficientBalance); }
      if now + lockDuration > U64_MAX { return Err(Overflow); }
      SetBalance(staker, balance - amount);
      stakes := stakes[staker := StakeRecord(amount, now + lockDuration, BoostMultiplier(lockDuration), totalFees)];
      lastClaim := lastClaim[staker := totalFees];
      r := Ok(());
    }

    method UnstakeBackit(staker: Address) returns (r: Result<(), Error>)
      requires Valid()
      modifies this`balances, this`stakes
      ensures Valid()
      ensures Follows(BackitToken.UnstakeBackit(old(State()), staker), old(State()), State(), r)
    {
      hide Sound;
      StepKeepsSound(State(), OpUnstake(staker));
      if staker == CONTRACT { return Err(Unauthorized); }
      if config.None? { return Err(NotInitialized); }
      if staker !in stakes { return Err(NotStaked); }
      var record := stakes[staker];
      if now < record.lockUntil { return Err(LockNotExpired); }
      var balance := Get(balances, staker);
      if !FitsI128(balance + record.amount) { return Err(Overflow); }
      SetBalance(staker, balance + record.amount);
      stakes := stakes - {staker};
      r := Ok(());
    }
  }
}
