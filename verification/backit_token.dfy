/** The BACKit revenue-share token as a state machine: a fixed supply of tokens, one
    optional stake per address, and fees paid out in proportion to a weighted balance. */
module BackitToken {
  import opened Basics

  const TOTAL_SUPPLY: int := 1_000_000_000_000_000
  const SECS_30_DAYS: nat := 2_592_000
  const SECS_90_DAYS: nat := 7_776_000
  const SECS_180_DAYS: nat := 15_552_000

  /** The token contract's own address, which holds the fee pool. It never signs. */
  const CONTRACT: Address := Address(0)

  datatype Error = AlreadyInitialized | NotInitialized | Unauthorized | ZeroBalance | NoFeesAvailable | AlreadyStaked
    | NotStaked | LockNotExpired | InvalidAmount | InsufficientBalance | InvalidLockDuration | InsufficientFunds
    | Overflow

  datatype StakeRecord = StakeRecord(amount: int, lockUntil: nat, boost: int, feesAtStake: int)

  /** The recipients of the initial supply, in the order their balances are written. */
  datatype Distribution = Distribution(community: Address, team: Address, treasury: Address, liquidity: Address,
                                       airdrop: Address)

  datatype Config = Config(admin: Address, distribution: Distribution)

  datatype Token = Token(
    now: nat,
    config: Option<Config>,
    totalSupply: int,
    balances: map<Address, int>,
    stakes: map<Address, StakeRecord>,
    lastClaim: map<Address, int>,
    totalFees: int,
    totalDistributed: int,
    usdc: map<Address, int>)

  type Outcome = Result<Token, Error>

  function BpsOf(total: int, bps: int): int {
    total * bps / 10_000
  }

  /** The balances as the initial distribution writes them; a later write to the same
      address replaces an earlier one. */
  function InitialBalances(balances: map<Address, int>, d: Distribution): map<Address, int> {
    balances[d.community := BpsOf(TOTAL_SUPPLY, 4000)][d.team := BpsOf(TOTAL_SUPPLY, 2000)]
            [d.treasury := BpsOf(TOTAL_SUPPLY, 1500)][d.liquidity := BpsOf(TOTAL_SUPPLY, 1500)]
            [d.airdrop := BpsOf(TOTAL_SUPPLY, 1000)]
  }

  function BoostMultiplier(lockDuration: nat): int {
    if lockDuration < SECS_30_DAYS then 1
    else if lockDuration < SECS_90_DAYS then 2
    else if lockDuration < SECS_180_DAYS then 3
    else 4
  }

  /** The weight of a holder with a liquid balance and perhaps a stake. */
  function Weight(supply: int, liquid: int, stake: Option<StakeRecord>): int {
    match stake
    case None => liquid
    case Some(record) => Min(liquid + record.amount * 2 * record.boost, supply)
  }

  function StakeOf(s: Token, holder: Address): Option<StakeRecord> {
    if holder in s.stakes then Some(s.stakes[holder]) else None
  }

  function EffectiveBalance(s: Token, holder: Address): int {
    Weight(s.totalSupply, Get(s.balances, holder), StakeOf(s, holder))
  }

  /** What the estimate view reports for a holder. */
  function Estimate(s: Token, holder: Address): int {
    var weight, fees := EffectiveBalance(s, holder), s.totalFees - Get(s.lastClaim, holder);
    if s.totalSupply == 0 || weight == 0 || fees <= 0 then 0 else fees * weight / s.totalSupply
  }

  /** A USDC transfer between two accounts. */
  function SendUsdc(usdc: map<Address, int>, from: Address, to: Address, amount: int)
    : Result<map<Address, int>, Error>
  {
    if Get(usdc, from) < amount then Err(InsufficientFunds)
    else
      var debited := usdc[from := Get(usdc, from) - amount];
      if !FitsI128(Get(debited, to) + amount) then Err(Overflow) else Ok(debited[to := Get(debited, to) + amount])
  }

  function Initialize(s: Token, admin: Address, d: Distribution): Outcome {
    if s.config.Some? then Err(AlreadyInitialized)
    else if admin == CONTRACT then Err(Unauthorized)
    else Ok(s.(config := Some(Config(admin, d)), totalSupply := TOTAL_SUPPLY,
               balances := InitialBalances(s.balances, d)))
  }

  function Transfer(s: Token, from: Address, to: Address, amount: int): Outcome {
    if amount <= 0 then Err(InvalidAmount)
    else if from == CONTRACT then Err(Unauthorized)
    else if Get(s.balances, from) < amount then Err(InsufficientBalance)
    else
      var debited := s.balances[from := Get(s.balances, from) - amount];
      if !FitsI128(Get(debited, to) + amount) then Err(Overflow)
      else Ok(s.(balances := debited[to := Get(debited, to) + amount]))
  }

  function FeePoolDeposit(s: Token, amount: int): Outcome {
    if amount <= 0 then Err(InvalidAmount)
    else if s.config.None? then Err(NotInitialized)
    else
      match SendUsdc(s.usdc, s.config.value.admin, CONTRACT, amount)
      case Err(e) => Err(e)
      case Ok(paid) =>
        if !FitsI128(s.totalFees + amount) then Err(Overflow)
        else Ok(s.(totalFees := s.totalFees + amount, usdc := paid))
  }

  function ClaimRevenueShare(s: Token, holder: Address): Outcome {
    if holder == CONTRACT then Err(Unauthorized)
    else if s.config.None? || s.totalSupply == 0 then Err(NotInitialized)
    else if EffectiveBalance(s, holder) == 0 then Err(ZeroBalance)
    else if s.totalFees - Get(s.lastClaim, holder) <= 0 then Err(NoFeesAvailable)
    else if !FitsI128((s.totalFees - Get(s.lastClaim, holder)) * EffectiveBalance(s, holder)) then Err(Overflow)
    else
      var share := Estimate(s, holder);
      if share <= 0 then Err(NoFeesAvailable)
      else if !FitsI128(s.totalDistributed + share) then Err(Overflow)
      else
        match SendUsdc(s.usdc, CONTRACT, holder, share)
        case Err(e) => Err(e)
        case Ok(paid) =>
          Ok(s.(lastClaim := s.lastClaim[holder := s.totalFees],
                totalDistributed := s.totalDistributed + share, usdc := paid))
  }

  function StakeBackit(s: Token, staker: Address, amount: int, lockDuration: nat): Outcome {
    if staker == CONTRACT then Err(Unauthorized)
    else if s.config.None? then Err(NotInitialized)
    else if amount <= 0 then Err(InvalidAmount)
    else if lockDuration == 0 then Err(InvalidLockDuration)
    else if staker in s.stakes then Err(AlreadyStaked)
    else if Get(s.balances, staker) < amount then Err(InsufficientBalance)
    else if s.now + lockDuration > U64_MAX then Err(Overflow)
    else
      var record := StakeRecord(amount, s.now + lockDuration, BoostMultiplier(lockDuration), s.totalFees);
      Ok(s.(balances := s.balances[staker := Get(s.balances, staker) - amount],
            stakes := s.stakes[staker := record],
            lastClaim := s.lastClaim[staker := s.totalFees]))
  }

  function UnstakeBackit(s: Token, staker: Address): Outcome {
    if staker == CONTRACT then Err(Unauthorized)
    else if s.config.None? then Err(NotInitialized)
    else if staker !in s.stakes then Err(NotStaked)
    else if s.now < s.stakes[staker].lockUntil then Err(LockNotExpired)
    else if !FitsI128(Get(s.balances, staker) + s.stakes[staker].amount) then Err(Overflow)
    else
      Ok(s.(balances := s.balances[staker := Get(s.balances, staker) + s.stakes[staker].amount],
            stakes := s.stakes - {staker}))
  }

  /** One transaction, the clock moving on, or a USDC account changing on its own; the
      contract's USDC account is only ever lowered by a claim. */
  datatype Op =
    | OpInitialize(admin: Address, distribution: Distribution)
    | OpTransfer(from: Address, to: Address, amount: int)
    | OpDeposit(amount: int)
    | OpClaim(holder: Address)
    | OpStake(staker: Address, amount: int, lockDuration: nat)
    | OpUnstake(staker: Address)
    | OpClock(elapsed: nat)
    | OpUsdcActivity(account: Address, balance: int)

  function Execute(s: Token, op: Op): Outcome {
    match op
    case OpInitialize(admin, d) => Initialize(s, admin, d)
    case OpTransfer(from, to, amount) => Transfer(s, from, to, amount)
    case OpDeposit(amount) => FeePoolDeposit(s, amount)
    case OpClaim(holder) => ClaimRevenueShare(s, holder)
    case OpStake(staker, amount, lockDuration) => StakeBackit(s, staker, amount, lockDuration)
    case OpUnstake(staker) => UnstakeBackit(s, staker)
    case OpClock(elapsed) => Ok(s.(now := s.now + elapsed))
    case OpUsdcActivity(account, balance) =>
      if balance < 0 || (account == CONTRACT && balance < Get(s.usdc, CONTRACT)) then Err(InvalidAmount)
      else Ok(s.(usdc := s.usdc[account := balance]))
  }

  function Next(s: Token, op: Op): Token {
    match Execute(s, op)
    case Ok(next) => next
    case Err(_) => s
  }

  function Run(s: Token, ops: seq<Op>): Token {
    if ops == [] then s else Next(Run(s, ops[..|ops| - 1]), ops[|ops| - 1])
  }

  /** A deployed contract before its initialisation, with any USDC balances. */
  predicate Deployed(s: Token) {
    && s.config.None?
    && s.totalSupply == 0 && s.totalFees == 0 && s.totalDistributed == 0
    && s.balances == map[] && s.stakes == map[] && s.lastClaim == map[]
    && Get(s.usdc, CONTRACT) >= 0
  }
}
