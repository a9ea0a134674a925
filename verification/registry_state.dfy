/** The call registry as a state machine: what the contract stores, and for every
    entry point the state it leaves behind or the error it stops with. A stopped
    transaction leaves no trace. */
module RegistryState {
  import opened Basics
  import opened Reputation

  /** The all-zero address that stands for native XLM. */
  const NATIVE_XLM := Address(0)
  /** The registry contract's own address. */
  const CONTRACT := Address(1)

  const EMERGENCY_CANCEL_DELAY: nat := 7 * 24 * 60 * 60
  const OUTCOME_UP: nat := 1
  const OUTCOME_DOWN: nat := 2

  datatype Error =
    | InvalidStakeAmount | InvalidEndTime | CallNotFound | CallEnded | CallSettled | InvalidPosition
    | Unauthorized | CallNotEnded | InvalidOutcome | InvalidOutcomeCount | StakingCutoffActive | Overflow
    | NotInitialized
      // panics of the contract without an error code
    | Paused | BelowMinimum | CallCancelled | CallVoided | GateNotMet | LimitExceeded | NotWhitelisted
    | TooLong | NoStake | AlreadyClaimed | NotVoided | NotResolved | NotSettled | NoShareTokens | NoShares
    | ZeroPayout | ActiveStakes | DelayNotElapsed
      // traps of a token contract
    | InvalidTransfer | InsufficientFunds

  datatype Config = Config(
    admin: Address,
    outcomeManager: Address,
    whitelist: set<Address>,
    minStake: int,
    paused: bool,
    stakingCutoff: nat,
    shareTokens: bool,
    gracePeriod: nat,
    maxDuration: nat,
    limits: LimitConfig)

  datatype Call = Call(
    creator: Address,
    stakeToken: Address,
    stakeAmount: int,
    endTs: nat,
    outcomeCount: nat,
    outcomeStakes: map<nat, int>,
    stakes: map<nat, map<Address, int>>,
    outcome: nat,
    endPrice: int,
    settled: bool,
    voided: bool,
    cancelled: bool,
    hasShares: bool)

  /** The key of a per-user stake record. */
  datatype StakeKey = StakeKey(call: nat, user: Address, position: nat)

  /** Balances of every token: token, then holder. */
  type Balances = map<Address, map<Address, int>>

  datatype Registry = Registry(
    now: nat,
    config: Config,
    callCounter: nat,
    calls: map<nat, Call>,
    userStakes: map<StakeKey, int>,
    creatorStats: map<Address, CreatorStats>,
    volumes: map<Address, int>,
    global: GlobalStats,
    stakerSeen: set<Address>,
    voidClaimed: set<(nat, Address)>,
    expiredClaimed: set<(nat, Address)>,
    balances: Balances,
    shares: map<(nat, nat), map<Address, int>>)

  type Outcome = Result<Registry, Error>

  // ---- Tokens ----

  function BalanceOf(b: Balances, token: Address, holder: Address): int {
    Get(GetMap(b, token), holder)
  }

  function SetBalance(b: Balances, token: Address, holder: Address, amount: int): Balances {
    b[token := GetMap(b, token)[holder := amount]]
  }

  /** A token transfer; a transfer to oneself changes nothing. */
  function Transfer(b: Balances, token: Address, from: Address, to: Address, amount: int): Result<Balances, Error> {
    if amount < 0 then Err(InvalidTransfer)
    else if BalanceOf(b, token, from) < amount then Err(InsufficientFunds)
    else
      var debited := SetBalance(b, token, from, BalanceOf(b, token, from) - amount);
      if !FitsI128(BalanceOf(debited, token, to) + amount) then Err(Overflow)
      else Ok(SetBalance(debited, token, to, BalanceOf(debited, token, to) + amount))
  }

  /** The funder's payment as the token executes it. Native XLM moves exactly the
      amount; another token takes the amount and delivers whatever it likes. */
  function Deposit(b: Balances, token: Address, funder: Address, amount: int, delivered: int): Result<Balances, Error> {
    if token == NATIVE_XLM then Transfer(b, token, funder, CONTRACT, amount)
    else if BalanceOf(b, token, funder) < amount then Err(InsufficientFunds)
    else
      var held := BalanceOf(b, token, CONTRACT);
      var debited := SetBalance(b, token, funder, BalanceOf(b, token, funder) - amount);
      if !FitsI128(held + delivered) then Err(Overflow)
      else Ok(SetBalance(debited, token, CONTRACT, held + delivered))
  }

  /** The part of a deposit the staker is credited with. */
  function Credited(token: Address, amount: int, delivered: int): int {
    if token == NATIVE_XLM then amount else Min(delivered, amount)
  }

  // ---- Reads ----

  function UserStake(s: Registry, call: nat, user: Address, position: nat): int {
    Get(s.userStakes, StakeKey(call, user, position))
  }

  /** A user's stake over positions 1 to n, from the per-user records. */
  function UserStakeUpTo(s: Registry, call: nat, user: Address, n: nat): int {
    if n == 0 then 0 else UserStakeUpTo(s, call, user, n - 1) + UserStake(s, call, user, n)
  }

  function StatsOf(s: Registry, user: Address): CreatorStats {
    if user in s.creatorStats then s.creatorStats[user] else CreatorStats(0, 0, 0)
  }

  /** The stakes on positions 1 to n together. */
  function PotUpTo(outcomeStakes: map<nat, int>, n: nat): int {
    if n == 0 then 0 else PotUpTo(outcomeStakes, n - 1) + Get(outcomeStakes, n)
  }

  function Pot(c: Call): int {
    PotUpTo(c.outcomeStakes, c.outcomeCount)
  }

  function StakeLimit(s: Registry, user: Address): Option<int> {
    EffectiveLimit(s.config.limits, StatsOf(s, user), Get(s.volumes, user), s.global)
  }

  /** A tenth, in basis points, rounded down. */
  function Penalty(stake: int): int {
    stake * 1000 / 10_000
  }

  function ShareBalance(s: Registry, call: nat, outcome: nat, holder: Address): int {
    Get(GetMap(s.shares, (call, outcome)), holder)
  }

  // ---- Entry points ----

  /** The stake totals of a new call: zero for each of its outcomes. */
  function EmptyOutcomes(n: nat): (m: map<nat, int>)
    ensures forall p: nat :: p in m <==> 1 <= p <= n
    ensures forall p: nat :: p in m ==> m[p] == 0
  {
    if n == 0 then map[] else EmptyOutcomes(n - 1)[n := 0]
  }

  /** The staker maps of a new call: an empty one for each of its outcomes. */
  function EmptyStakes(n: nat): (m: map<nat, map<Address, int>>)
    ensures forall p: nat :: p in m <==> 1 <= p <= n
    ensures forall p: nat :: p in m ==> m[p] == map[]
  {
    if n == 0 then map[] else EmptyStakes(n - 1)[n := map[]]
  }

  function CreateCall(s: Registry, creator: Address, token: Address, stakeAmount: int, startPrice: int, endTs: nat,
                      outcomeCount: nat): Outcome
  {
    if s.config.paused then Err(Paused)
    else if stakeAmount < s.config.minStake || stakeAmount <= 0 then Err(InvalidStakeAmount)
    else if startPrice <= 0 then Err(InvalidStakeAmount)
    else if outcomeCount < 2 then Err(InvalidOutcomeCount)
    else if endTs <= s.now then Err(InvalidEndTime)
    else if endTs - s.now > s.config.maxDuration then Err(TooLong)
    else if token != NATIVE_XLM && token !in s.config.whitelist then Err(NotWhitelisted)
    else
      var stats := StatsOf(s, creator);
      if stats.totalCreated + 1 > U32_MAX then Err(Overflow)
      else
        var id := s.callCounter + 1;
        Ok(s.(callCounter := id,
              calls := s.calls[id := Call(creator, token, stakeAmount, endTs, outcomeCount,
                                          EmptyOutcomes(outcomeCount), EmptyStakes(outcomeCount),
                                          0, 0, false, false, false, s.config.shareTokens)],
              global := s.global.(totalCalls := s.global.totalCalls + 1),
              creatorStats := s.creatorStats[creator := stats.(totalCreated := stats.totalCreated + 1)]))
  }

  /** Everything a stake is refused for before any token moves. */
  function StakeRefusal(s: Registry, staker: Address, id: nat, amount: int, position: nat, qualifies: bool)
    : Option<Error>
  {
    if amount <= 0 then Some(InvalidStakeAmount)
    else if s.config.paused then Some(Paused)
    else if amount < s.config.minStake then Some(BelowMinimum)
    else if id !in s.calls then Some(CallNotFound)
    else
      var c, cutoff := s.calls[id], s.config.stakingCutoff;
      if s.now >= c.endTs then Some(CallEnded)
      else if cutoff > 0 && c.endTs > cutoff && s.now >= c.endTs - cutoff then Some(StakingCutoffActive)
      else if c.settled then Some(CallSettled)
      else if c.cancelled then Some(CallCancelled)
      else if c.voided then Some(CallVoided)
      else if position < 1 || position > c.outcomeCount then Some(InvalidPosition)
      else if !qualifies then Some(GateNotMet)
      else
        var wanted := Get(GetMap(c.stakes, position), staker) + amount;
        if !FitsI128(wanted) then Some(Overflow)
        else
          match StakeLimit(s, staker)
          case None => Some(Overflow)
          case Some(limit) => if wanted > limit then Some(LimitExceeded) else None
  }

  /** A call after `credited` has been added to a position. */
  function CreditCall(c: Call, staker: Address, position: nat, credited: int): Call {
    var stakers := GetMap(c.stakes, position);
    c.(outcomeStakes := c.outcomeStakes[position := Get(c.outcomeStakes, position) + credited],
       stakes := c.stakes[position := stakers[staker := Get(stakers, staker) + credited]])
  }

  /** The platform totals after one more stake. */
  function Counted(g: GlobalStats, seen: bool, credited: int): GlobalStats {
    g.(totalStakeVolume := g.totalStakeVolume + credited,
       totalUniqueStakers := g.totalUniqueStakers + if seen then 0 else 1)
  }

  function Minted(shares: map<(nat, nat), map<Address, int>>, key: (nat, nat), to: Address, amount: int)
    : map<(nat, nat), map<Address, int>>
  {
    shares[key := GetMap(shares, key)[to := Get(GetMap(shares, key), to) + amount]]
  }

  /** The books after `credited` has been added to a position. */
  function CreditStake(s: Registry, staker: Address, id: nat, position: nat, credited: int): Registry
    requires id in s.calls
  {
    var c := s.calls[id];
    s.(calls := s.calls[id := CreditCall(c, staker, position, credited)],
       userStakes := s.userStakes[StakeKey(id, staker, position) := Get(GetMap(c.stakes, position), staker) + credited],
       volumes := s.volumes[staker := Get(s.volumes, staker) + credited],
       global := Counted(s.global, staker in s.stakerSeen, credited),
       stakerSeen := s.stakerSeen + {staker},
       shares := if c.hasShares then Minted(s.shares, (id, position), staker, credited) else s.shares)
  }

  /** No sum written by CreditStake leaves the i128 range. */
  predicate CreditFits(s: Registry, staker: Address, id: nat, position: nat, credited: int)
    requires id in s.calls
  {
    && (s.calls[id].hasShares ==> FitsI128(ShareBalance(s, id, position, staker) + credited))
    && FitsI128(Get(s.calls[id].outcomeStakes, position) + credited)
    && FitsI128(s.global.totalStakeVolume + credited)
    && FitsI128(Get(s.volumes, staker) + credited)
  }

  function Stake(s: Registry, funder: Address, staker: Address, id: nat, amount: int, position: nat, delivered: int,
                 qualifies: bool): Outcome
  {
    match StakeRefusal(s, staker, id, amount, position, qualifies)
    case Some(e) => Err(e)
    case None =>
      var token := s.calls[id].stakeToken;
      match Deposit(s.balances, token, funder, amount, delivered)
      case Err(e) => Err(e)
      case Ok(paid) =>
        var credited := Credited(token, amount, delivered);
        if token != NATIVE_XLM && delivered <= 0 then Err(InvalidStakeAmount)
        else if !CreditFits(s, staker, id, position, credited) then Err(Overflow)
        else Ok(CreditStake(s.(balances := paid), staker, id, position, credited))
  }

  /** A call after a staker has left a position with only `refund` of the stake. */
  function LeaveCall(c: Call, staker: Address, position: nat, refund: int): Call {
    c.(stakes := c.stakes[position := GetMap(c.stakes, position) - {staker}],
       outcomeStakes := c.outcomeStakes[position := Get(c.outcomeStakes, position) - refund])
  }

  /** The books after a staker has left a position with only `refund` of the stake. */
  function RemoveStake(s: Registry, staker: Address, id: nat, position: nat, refund: int): Registry
    requires id in s.calls
  {
    s.(calls := s.calls[id := LeaveCall(s.calls[id], staker, position, refund)],
       userStakes := s.userStakes[StakeKey(id, staker, position) := 0])
  }

  function WithdrawStake(s: Registry, staker: Address, id: nat, position: nat): Outcome {
    if s.config.paused then Err(Paused)
    else if id !in s.calls then Err(CallNotFound)
    else
      var c := s.calls[id];
      if s.now >= c.endTs then Err(CallEnded)
      else if c.settled then Err(CallSettled)
      else if c.cancelled then Err(CallCancelled)
      else if c.voided then Err(CallVoided)
      else if position < 1 || position > c.outcomeCount then Err(InvalidPosition)
      else
        var stake := UserStake(s, id, staker, position);
        if stake <= 0 then Err(NoStake)
        else if !FitsI128(stake * 1000) then Err(Overflow)
        else
          var refund := stake - Penalty(stake);
          match Transfer(s.balances, c.stakeToken, CONTRACT, staker, refund)
          case Err(e) => Err(e)
          case Ok(paid) =>
            Ok(RemoveStake(s.(balances := paid), staker, id, position, refund))
  }

  /** The creator's own stake on the announced outcome, which decides whether the
      call counts as correct; outcomes above 2 never do. */
  function CreatorWinningStake(s: Registry, id: nat, outcome: nat): int
    requires id in s.calls
  {
    if outcome == OUTCOME_UP then UserStake(s, id, s.calls[id].creator, 1)
    else if outcome == OUTCOME_DOWN then UserStake(s, id, s.calls[id].creator, 2)
    else 0
  }

  function ResolveCall(s: Registry, caller: Address, id: nat, outcome: nat, endPrice: int): Outcome {
    if s.config.paused then Err(Paused)
    else if caller != s.config.outcomeManager then Err(Unauthorized)
    else if id !in s.calls then Err(CallNotFound)
    else
      var c := s.calls[id];
      if outcome < 1 || outcome > c.outcomeCount then Err(InvalidOutcome)
      else if s.now < c.endTs then Err(CallNotEnded)
      else if c.voided then Err(CallVoided)
      else
        var stats := StatsOf(s, c.creator);
        var resolved := stats.totalResolved + 1;
        var correct := stats.totalCorrect + if CreatorWinningStake(s, id, outcome) > 0 then 1 else 0;
        if resolved > U32_MAX || correct > U32_MAX then Err(Overflow)
        else
          var updated := stats.(totalResolved := resolved, totalCorrect := correct);
          // the event about a changed limit evaluates the limit before and after
          if EffectiveLimit(s.config.limits, stats, Get(s.volumes, c.creator), s.global).None?
             || EffectiveLimit(s.config.limits, updated, Get(s.volumes, c.creator), s.global).None?
          then Err(Overflow)
          else Ok(s.(calls := s.calls[id := c.(outcome := outcome, endPrice := endPrice)],
                     creatorStats := s.creatorStats[c.creator := updated]))
  }

  function MarkSettled(s: Registry, caller: Address, id: nat): Outcome {
    if caller != s.config.outcomeManager then Err(Unauthorized)
    else if id !in s.calls then Err(CallNotFound)
    else if s.calls[id].settled then Err(CallSettled)
    else Ok(s.(calls := s.calls[id := s.calls[id].(settled := true)]))
  }

  function VoidCall(s: Registry, caller: Address, id: nat): Outcome {
    if caller != s.config.admin then Err(Unauthorized)
    else if id !in s.calls then Err(CallNotFound)
    else if s.calls[id].voided then Err(CallVoided)
    else if s.calls[id].settled then Err(CallSettled)
    else Ok(s.(calls := s.calls[id := s.calls[id].(voided := true)]))
  }

  function ClaimVoidRefund(s: Registry, staker: Address, id: nat): Outcome {
    if id !in s.calls then Err(CallNotFound)
    else if !s.calls[id].voided then Err(NotVoided)
    else if (id, staker) in s.voidClaimed then Err(AlreadyClaimed)
    else
      var refund := UserStake(s, id, staker, 1) + UserStake(s, id, staker, 2);
      if !FitsI128(refund) then Err(Overflow)
      else if refund <= 0 then Err(NoStake)
      else
        match Transfer(s.balances, s.calls[id].stakeToken, CONTRACT, staker, refund)
        case Err(e) => Err(e)
        case Ok(paid) => Ok(s.(voidClaimed := s.voidClaimed + {(id, staker)}, balances := paid))
  }

  function ClaimExpiredRefund(s: Registry, staker: Address, id: nat): Outcome {
    if id !in s.calls then Err(CallNotFound)
    else
      var c := s.calls[id];
      if c.endTs + s.config.gracePeriod > U64_MAX then Err(Overflow)
      else if s.now <= c.endTs + s.config.gracePeriod then Err(DelayNotElapsed)
      else if c.settled then Err(CallSettled)
      else if c.voided then Err(CallVoided)
      else if (id, staker) in s.expiredClaimed then Err(AlreadyClaimed)
      else
        var refund := UserStakeUpTo(s, id, staker, c.outcomeCount);
        if !FitsI128(refund) then Err(Overflow)
        else if refund <= 0 then Err(NoStake)
        else
          match Transfer(s.balances, c.stakeToken, CONTRACT, staker, refund)
          case Err(e) => Err(e)
          case Ok(paid) => Ok(s.(expiredClaimed := s.expiredClaimed + {(id, staker)}, balances := paid))
  }

  function CancelCall(s: Registry, creator: Address, id: nat): Outcome {
    if id !in s.calls then Err(CallNotFound)
    else
      var c := s.calls[id];
      if c.creator != creator then Err(Unauthorized)
      else if c.settled then Err(CallSettled)
      else if c.cancelled then Err(CallCancelled)
      else if !FitsI128(Pot(c)) then Err(Overflow)
      else if Pot(c) > 0 then Err(ActiveStakes)
      else
        match Transfer(s.balances, c.stakeToken, CONTRACT, creator, c.stakeAmount)
        case Err(e) => Err(e)
        case Ok(paid) => Ok(s.(calls := s.calls[id := c.(cancelled := true)], balances := paid))
  }

  function EmergencyCancelCall(s: Registry, caller: Address, id: nat): Outcome {
    if id !in s.calls then Err(CallNotFound)
    else
      var c := s.calls[id];
      if c.settled then Err(CallSettled)
      else if c.cancelled || c.voided then Err(CallCancelled)
      else if caller != s.config.admin && caller != c.creator then Err(Unauthorized)
      else if caller != s.config.admin && !FitsI128(Pot(c)) then Err(Overflow)
      else if caller != s.config.admin && Pot(c) > 0 then Err(ActiveStakes)
      else if caller != s.config.admin && c.endTs + EMERGENCY_CANCEL_DELAY > U64_MAX then Err(Overflow)
      else if caller != s.config.admin && s.now <= c.endTs + EMERGENCY_CANCEL_DELAY then Err(DelayNotElapsed)
      else
        match Transfer(s.balances, c.stakeToken, CONTRACT, c.creator, c.stakeAmount)
        case Err(e) => Err(e)
        case Ok(paid) => Ok(s.(calls := s.calls[id := c.(cancelled := true, voided := true)], balances := paid))
  }

  /** What a number of winning shares is worth, rounded down. */
  function Payout(shares: int, pot: int, winning: int): int {
    if winning > 0 then shares * pot / winning else 0
  }

  /** What a redemption would pay now, for any call with an outcome. */
  function RedemptionPayout(s: Registry, redeemer: Address, id: nat): int
    requires id in s.calls
  {
    var c := s.calls[id];
    Payout(ShareBalance(s, id, c.outcome, redeemer), Pot(c), Get(c.outcomeStakes, c.outcome))
  }

  function RedeemShares(s: Registry, redeemer: Address, id: nat): Outcome {
    if id !in s.calls then Err(CallNotFound)
    else
      var c := s.calls[id];
      if c.outcome == 0 then Err(NotResolved)
      else if !c.settled then Err(NotSettled)
      else if !c.hasShares then Err(NoShareTokens)
      else
        var w := c.outcome;
        var balance := ShareBalance(s, id, w, redeemer);
        if balance <= 0 then Err(NoShares)
        else if !FitsI128(Pot(c)) || !FitsI128(balance * Pot(c)) then Err(Overflow)
        else
          var payout := RedemptionPayout(s, redeemer, id);
          if payout <= 0 then Err(ZeroPayout)
          else
            match Transfer(s.balances, c.stakeToken, CONTRACT, redeemer, payout)
            case Err(e) => Err(e)
            case Ok(paid) =>
              Ok(s.(shares := s.shares[(id, w) := GetMap(s.shares, (id, w))[redeemer := 0]], balances := paid))
  }

  function TransferShares(s: Registry, from: Address, to: Address, id: nat, outcome: nat, amount: int): Outcome {
    if id !in s.calls then Err(CallNotFound)
    else if outcome < 1 || outcome > s.calls[id].outcomeCount then Err(InvalidPosition)
    else if !s.calls[id].hasShares then Err(NotInitialized)
    else if amount < 0 then Err(InvalidTransfer)
    else if ShareBalance(s, id, outcome, from) < amount then Err(InsufficientFunds)
    else
      var key := (id, outcome);
      var debited := GetMap(s.shares, key)[from := ShareBalance(s, id, outcome, from) - amount];
      if !FitsI128(Get(debited, to) + amount) then Err(Overflow)
      else Ok(s.(shares := s.shares[key := debited[to := Get(debited, to) + amount]]))
  }

  function ReleaseEscrow(s: Registry, caller: Address, id: nat, to: Address, amount: int): Outcome {
    if caller != s.config.outcomeManager then Err(Unauthorized)
    else if id !in s.calls then Err(CallNotFound)
    else
      match Transfer(s.balances, s.calls[id].stakeToken, CONTRACT, to, amount)
      case Err(e) => Err(e)
      case Ok(paid) => Ok(s.(balances := paid))
  }

  /** The one multisig operation that moves tokens: an executed fee withdrawal. */
  function WithdrawFees(s: Registry, token: Address, amount: int): Outcome {
    if amount <= 0 then Err(InvalidStakeAmount)
    else
      match Transfer(s.balances, token, CONTRACT, s.config.admin, amount)
      case Err(e) => Err(e)
      case Ok(paid) => Ok(s.(balances := paid))
  }

  // ---- Transactions and runs ----

  /** One transaction: an entry point with its arguments, a change of settings, the
      ledger clock moving on, or activity of the token contracts that does not go
      through the registry and takes nothing from it. */
  datatype Op =
    | OpCreate(creator: Address, token: Address, stakeAmount: int, startPrice: int, endTs: nat, outcomeCount: nat)
    | OpStake(funder: Address, staker: Address, call: nat, amount: int, position: nat, delivered: int, qualifies: bool)
    | OpWithdraw(staker: Address, call: nat, position: nat)
    | OpResolve(caller: Address, call: nat, outcome: nat, endPrice: int)
    | OpSettle(caller: Address, call: nat)
    | OpVoid(caller: Address, call: nat)
    | OpVoidRefund(staker: Address, call: nat)
    | OpExpiredRefund(staker: Address, call: nat)
    | OpCancel(creator: Address, call: nat)
    | OpEmergencyCancel(caller: Address, call: nat)
    | OpRedeem(redeemer: Address, call: nat)
    | OpTransferShares(from: Address, to: Address, call: nat, outcome: nat, amount: int)
    | OpRelease(caller: Address, call: nat, to: Address, amount: int)
    | OpWithdrawFees(token: Address, amount: int)
    | OpConfigure(config: Config)
    | OpClock(elapsed: nat)
    | OpTokenActivity(token: Address, holder: Address, balance: int)

  function Execute(s: Registry, op: Op): Outcome {
    match op
    case OpCreate(creator, token, stakeAmount, startPrice, endTs, n) =>
      CreateCall(s, creator, token, stakeAmount, startPrice, endTs, n)
    case OpStake(funder, staker, id, amount, position, delivered, qualifies) =>
      Stake(s, funder, staker, id, amount, position, delivered, qualifies)
    case OpWithdraw(staker, id, position) => WithdrawStake(s, staker, id, position)
    case OpResolve(caller, id, outcome, endPrice) => ResolveCall(s, caller, id, outcome, endPrice)
    case OpSettle(caller, id) => MarkSettled(s, caller, id)
    case OpVoid(caller, id) => VoidCall(s, caller, id)
    case OpVoidRefund(staker, id) => ClaimVoidRefund(s, staker, id)
    case OpExpiredRefund(staker, id) => ClaimExpiredRefund(s, staker, id)
    case OpCancel(creator, id) => CancelCall(s, creator, id)
    case OpEmergencyCancel(caller, id) => EmergencyCancelCall(s, caller, id)
    case OpRedeem(redeemer, id) => RedeemShares(s, redeemer, id)
    case OpTransferShares(from, to, id, outcome, amount) => TransferShares(s, from, to, id, outcome, amount)
    case OpRelease(caller, id, to, amount) => ReleaseEscrow(s, caller, id, to, amount)
    case OpWithdrawFees(token, amount) => WithdrawFees(s, token, amount)
    case OpConfigure(config) => Ok(s.(config := config))
    case OpClock(elapsed) => Ok(s.(now := s.now + elapsed))
    case OpTokenActivity(token, holder, balance) =>
      if balance < 0 || (holder == CONTRACT && balance < BalanceOf(s.balances, token, CONTRACT))
      then Err(InvalidTransfer)
      else Ok(s.(balances := SetBalance(s.balances, token, holder, balance)))
  }

  /** A freshly deployed registry: no calls, no records, any settings and any token
      balances. */
  predicate Fresh(s: Registry) {
    && s.callCounter == 0
    && s.calls == map[]
    && s.userStakes == map[]
    && s.creatorStats == map[]
    && s.volumes == map[]
    && s.global == GlobalStats(0, 0, 0)
    && s.stakerSeen == {}
    && s.voidClaimed == {}
    && s.expiredClaimed == {}
    && s.shares == map[]
  }
}
