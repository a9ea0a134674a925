/** The contract as the entry points execute it: storage fields written one after the
    other, loops over outcomes and calls. Every method is proved to leave exactly the
    state that the state machine prescribes, or an untouched one and the same error. */
module RegistryContract {
  import opened Basics
  import opened Reputation
  import opened RegistryState
  import opened CreatorPages

  class CallRegistry {
    var now: nat
    var config: Config
    var callCounter: nat
    var calls: map<nat, Call>
    var userStakes: map<StakeKey, int>
    var creatorStats: map<Address, CreatorStats>
    var volumes: map<Address, int>
    var global: GlobalStats
    var stakerSeen: set<Address>
    var voidClaimed: set<(nat, Address)>
    var expiredClaimed: set<(nat, Address)>
    var balances: Balances
    var shares: map<(nat, nat), map<Address, int>>

    function State(): Registry
      reads this
    {
      Registry(now, config, callCounter, calls, userStakes, creatorStats, volumes, global, stakerSeen, voidClaimed,
               expiredClaimed, balances, shares)
    }

    constructor (config: Config, now: nat, balances: Balances)
      ensures Fresh(State()) && this.config == config && this.now == now && this.balances == balances
    {
      this.now, this.config, this.balances := now, config, balances;
      callCounter, calls, userStakes := 0, map[], map[];
      creatorStats, volumes, global := map[], map[], GlobalStats(0, 0, 0);
      stakerSeen, voidClaimed, expiredClaimed, shares := {}, {}, {}, map[];
    }

    /** The loop that adds up the stakes of all outcomes. */
    method TotalStaked(c: Call) returns (total: int)
      ensures total == Pot(c)
    {
      total := 0;
      for i := 1 to c.outcomeCount + 1
        invariant total == PotUpTo(c.outcomeStakes, i - 1)
      {
        total := total + Get(c.outcomeStakes, i);
      }
    }

    /** The loop that adds up a staker's records over all positions. */
    method TotalUserStake(id: nat, staker: Address, n: nat) returns (total: int)
      ensures total == UserStakeUpTo(State(), id, staker, n)
    {
      total := 0;
      for position := 1 to n + 1
        invariant total == UserStakeUpTo(State(), id, staker, position - 1)
      {
        total := total + UserStake(State(), id, staker, position);
      }
    }

    method TransferToken(token: Address, from: Address, to: Address, amount: int) returns (r: Result<(), Error>)
      modifies this`balances
      ensures match r
        case Ok(_) => Transfer(old(balances), token, from, to, amount) == Ok(balances)
        case Err(e) => Transfer(old(balances), token, from, to, amount) == Err(e) && balances == old(balances)
    {
      if amount < 0 { return Err(InvalidTransfer); }
      var available := BalanceOf(balances, token, from);
      if available < amount { return Err(InsufficientFunds); }
      var before := balances;
      balances := SetBalance(balances, token, from, available - amount);
      var received := BalanceOf(balances, token, to) + amount;
      if !FitsI128(received) {
        balances := before;
        return Err(Overflow);
      }
      balances := SetBalance(balances, token, to, received);
      r := Ok(());
    }

    /** The loop that opens the books of every outcome. */
    static method EmptyBooks(outcomeCount: nat)
      returns (outcomeStakes: map<nat, int>, stakes: map<nat, map<Address, int>>)
      ensures outcomeStakes == EmptyOutcomes(outcomeCount) && stakes == EmptyStakes(outcomeCount)
    {
      outcomeStakes, stakes := map[], map[];
      for i := 1 to outcomeCount + 1
        invariant outcomeStakes == EmptyOutcomes(i - 1) && stakes == EmptyStakes(i - 1)
      {
        outcomeStakes := outcomeStakes[i := 0];
        stakes := stakes[i := map[]];
      }
    }

    method CreateCall(creator: Address, token: Address, stakeAmount: int, startPrice: int, endTs: nat,
                      outcomeCount: nat) returns (r: Result<Call, Error>)
      modifies this
      ensures Follows(RegistryState.CreateCall(old(State()), creator, token, stakeAmount, startPrice, endTs,
                                               outcomeCount), old(State()), State(), r)
      ensures r.Ok? ==> callCounter in calls && r.value == calls[callCounter]
    {
      hide EmptyOutcomes, EmptyStakes;
      if config.paused { return Err(Paused); }
      if stakeAmount < config.minStake || stakeAmount <= 0 { return Err(InvalidStakeAmount); }
      if startPrice <= 0 { return Err(InvalidStakeAmount); }
      if outcomeCount < 2 { return Err(InvalidOutcomeCount); }
      if endTs <= now { return Err(InvalidEndTime); }
      if endTs - now > config.maxDuration { return Err(TooLong); }
      if token != NATIVE_XLM && token !in config.whitelist { return Err(NotWhitelisted); }
      var stats := StatsOf(State(), creator);
      if stats.totalCreated + 1 > U32_MAX { return Err(Overflow); }

      callCounter := callCounter + 1;
      var outcomeStakes, stakes := EmptyBooks(outcomeCount);
      var call := Call(creator, token, stakeAmount, endTs, outcomeCount, outcomeStakes, stakes, 0, 0, false, false,
                       false, config.shareTokens);
      calls := calls[callCounter := call];
      global := global.(totalCalls := global.totalCalls + 1);
      creatorStats := creatorStats[creator := stats.(totalCreated := stats.totalCreated + 1)];
      r := Ok(call);
    }

    /** The payment of a stake: the balance is read around the transfer unless the token
        is native XLM. */
    method Receive(token: Address, funder: Address, amount: int, delivered: int) returns (r: Result<int, Error>)
      modifies this`balances
      ensures match r
        case Ok(credited) =>
          && Deposit(old(balances), token, funder, amount, delivered) == Ok(balances)
          && (token == NATIVE_XLM || delivered > 0) && credited == Credited(token, amount, delivered)
        case Err(e) =>
          && balances == old(balances)
          && (Deposit(old(balances), token, funder, amount, delivered) == Err(e)
              || (Deposit(old(balances), token, funder, amount, delivered).Ok? && e == InvalidStakeAmount
                  && token != NATIVE_XLM && delivered <= 0))
    {
      if token == NATIVE_XLM {
        var paid := TransferToken(token, funder, CONTRACT, amount);
        match paid {
          case Ok(_) => return Ok(amount);
          case Err(e) => return Err(e);
        }
      }
      var balanceBefore := BalanceOf(balances, token, CONTRACT);
      match Deposit(balances, token, funder, amount, delivered) {
        case Err(e) => return Err(e);
        case Ok(paid) =>
          var received := BalanceOf(paid, token, CONTRACT) - balanceBefore;
          if received <= 0 { return Err(InvalidStakeAmount); }
          balances := paid;
          return Ok(Min(received, amount));
      }
    }

    method DoStake(funder: Address, staker: Address, id: nat, amount: int, position: nat, delivered: int,
                   qualifies: bool) returns (r: Result<Call, Error>)
      modifies this
      ensures Follows(RegistryState.Stake(old(State()), funder, staker, id, amount, position, delivered, qualifies),
                      old(State()), State(), r)
      ensures r.Ok? ==> id in calls && r.value == calls[id]
    {
      hide StakeRefusal, CreditStake, Deposit, FitsI128;
      var refusal := CheckStake(staker, id, amount, position, qualifies);
      if refusal.Some? { return Err(refusal.value); }
      var call := calls[id];
      var balancesBefore := balances;
      var payment := Receive(call.stakeToken, funder, amount, delivered);
      if payment.Err? { return Err(payment.error); }
      var credited := payment.value;
      if !CreditFits(State(), staker, id, position, credited) {
        balances := balancesBefore;
        return Err(Overflow);
      }

      BookStake(staker, id, position, credited);
      r := Ok(calls[id]);
    }

    method BookStake(staker: Address, id: nat, position: nat, credited: int)
      requires id in calls
      modifies this
      ensures State() == CreditStake(old(State()), staker, id, position, credited) && id in calls
    {
      hide CreditCall, Minted, Counted, GetMap, Get;
      WriteStake(staker, id, position, credited);
    }

    /** The ledgers and totals a credited stake is written to, in the contract's order. */
    method WriteStake(staker: Address, id: nat, position: nat, credited: int)
      requires id in calls
      modifies this`calls, this`userStakes, this`shares, this`global, this`stakerSeen, this`volumes
      ensures calls == old(calls)[id := CreditCall(old(calls[id]), staker, position, credited)]
      ensures userStakes == old(userStakes)[StakeKey(id, staker, position) :=
                              Get(GetMap(old(calls[id]).stakes, position), staker) + credited]
      ensures shares == if old(calls[id]).hasShares then Minted(old(shares), (id, position), staker, credited)
                        else old(shares)
      ensures volumes == old(volumes)[staker := Get(old(volumes), staker) + credited]
      ensures stakerSeen == old(stakerSeen) + {staker}
      ensures global == Counted(old(global), staker in old(stakerSeen), credited)
    {
      hide *;
      var call := calls[id];
      var updated := Get(GetMap(call.stakes, position), staker) + credited;
      if call.hasShares {
        Mint((id, position), staker, credited);
      }
      call := AddToCall(call, staker, position, credited, updated);
      userStakes := userStakes[StakeKey(id, staker, position) := updated];
      calls := calls[id := call];
      CountStake(staker, credited);
    }

    static method AddToCall(c: Call, staker: Address, position: nat, credited: int, updated: int) returns (call: Call)
      requires updated == Get(GetMap(c.stakes, position), staker) + credited
      ensures call == CreditCall(c, staker, position, credited)
    {
      call := c.(outcomeStakes := c.outcomeStakes[position := Get(c.outcomeStakes, position) + credited]);
      var outcomeStakers := GetMap(call.stakes, position);
      outcomeStakers := outcomeStakers[staker := updated];
      call := call.(stakes := call.stakes[position := outcomeStakers]);
    }

    method Mint(key: (nat, nat), to: Address, amount: int)
      modifies this`shares
      ensures shares == Minted(old(shares), key, to, amount)
    {
      var held := GetMap(shares, key);
      shares := shares[key := held[to := Get(held, to) + amount]];
    }

    /** The platform totals, the set of known stakers and the staker's volume. */
    method CountStake(staker: Address, credited: int)
      modifies this`global, this`stakerSeen, this`volumes
      ensures volumes == old(volumes)[staker := Get(old(volumes), staker) + credited]
      ensures stakerSeen == old(stakerSeen) + {staker}
      ensures global == Counted(old(global), staker in old(stakerSeen), credited)
    {
      global := global.(totalStakeVolume := global.totalStakeVolume + credited);
      if staker !in stakerSeen {
        stakerSeen := stakerSeen + {staker};
        global := global.(totalUniqueStakers := global.totalUniqueStakers + 1);
      }
      volumes := volumes[staker := Get(volumes, staker) + credited];
    }

    method CheckStake(staker: Address, id: nat, amount: int, position: nat, qualifies: bool)
      returns (refusal: Option<Error>)
      ensures refusal == StakeRefusal(State(), staker, id, amount, position, qualifies)
      ensures refusal.None? ==> id in calls
    {
      if amount <= 0 { return Some(InvalidStakeAmount); }
      if config.paused { return Some(Paused); }
      if amount < config.minStake { return Some(BelowMinimum); }
      if id !in calls { return Some(CallNotFound); }
      var call := calls[id];
      if now >= call.endTs { return Some(CallEnded); }
      var cutoff := config.stakingCutoff;
      if cutoff > 0 && call.endTs > cutoff && now >= call.endTs - cutoff { return Some(StakingCutoffActive); }
      if call.settled { return Some(CallSettled); }
      if call.cancelled { return Some(CallCancelled); }
      if call.voided { return Some(CallVoided); }
      if position < 1 || position > call.outcomeCount { return Some(InvalidPosition); }
      if !qualifies { return Some(GateNotMet); }
      var wanted := Get(GetMap(call.stakes, position), staker) + amount;
      if !FitsI128(wanted) { return Some(Overflow); }
      match EffectiveLimit(config.limits, StatsOf(State(), staker), Get(volumes, staker), global) {
        case None => return Some(Overflow);
        case Some(limit) =>
          if wanted > limit { return Some(LimitExceeded); }
      }
      refusal := None;
    }

    method WithdrawStake(staker: Address, id: nat, position: nat) returns (r: Result<(int, int), Error>)
      modifies this
      ensures Follows(RegistryState.WithdrawStake(old(State()), staker, id, position), old(State()), State(), r)
      ensures r.Ok? ==> r.value.0 + r.value.1 == UserStake(old(State()), id, staker, position)
                        && 9 * (r.value.0 + r.value.1) <= 10 * r.value.0 < 9 * (r.value.0 + r.value.1) + 10
    {
      hide LeaveCall, FitsI128, RegistryState.Transfer;
      if config.paused { return Err(Paused); }
      if id !in calls { return Err(CallNotFound); }
      var call := calls[id];
      if now >= call.endTs { return Err(CallEnded); }
      if call.settled { return Err(CallSettled); }
      if call.cancelled { return Err(CallCancelled); }
      if call.voided { return Err(CallVoided); }
      if position < 1 || position > call.outcomeCount { return Err(InvalidPosition); }
      var stake := UserStake(State(), id, staker, position);
      if stake <= 0 { return Err(NoStake); }
      if !FitsI128(stake * 1000) { return Err(Overflow); }
      var penalty := stake * 1000 / 10_000;
      var refund := stake - penalty;
      var paid := TransferToken(call.stakeToken, CONTRACT, staker, refund);
      if paid.Err? { return Err(paid.error); }

      call := TakeFromCall(call, staker, position, refund);
      userStakes := userStakes[StakeKey(id, staker, position) := 0];
      calls := calls[id := call];
      r := Ok((refund, penalty));
    }

    static method TakeFromCall(c: Call, staker: Address, position: nat, refund: int) returns (call: Call)
      ensures call == LeaveCall(c, staker, position, refund)
    {
      var outcomeStakers := GetMap(c.stakes, position) - {staker};
      call := c.(stakes := c.stakes[position := outcomeStakers]);
      call := call.(outcomeStakes := call.outcomeStakes[position := Get(call.outcomeStakes, position) - refund]);
    }

    method ResolveCall(caller: Address, id: nat, outcome: nat, endPrice: int) returns (r: Result<Call, Error>)
      modifies this
      ensures Follows(RegistryState.ResolveCall(old(State()), caller, id, outcome, endPrice), old(State()), State(), r)
      ensures r.Ok? ==> id in calls && r.value == calls[id]
    {
      if config.paused { return Err(Paused); }
      if caller != config.outcomeManager { return Err(Unauthorized); }
      if id !in calls { return Err(CallNotFound); }
      var call := calls[id];
      if outcome < 1 || outcome > call.outcomeCount { return Err(InvalidOutcome); }
      if now < call.endTs { return Err(CallNotEnded); }
      if call.voided { return Err(CallVoided); }
      call := call.(outcome := outcome);
      call := call.(endPrice := endPrice);
      var oldStats := StatsOf(State(), call.creator);
      var stats := oldStats.(totalResolved := oldStats.totalResolved + 1);
      if CreatorWinningStake(State(), id, outcome) > 0 {
        stats := stats.(totalCorrect := stats.totalCorrect + 1);
      }
      if stats.totalResolved > U32_MAX || stats.totalCorrect > U32_MAX { return Err(Overflow); }
      var volume := Get(volumes, call.creator);
      var limitBefore := EffectiveLimit(config.limits, oldStats, volume, global);
      var limitAfter := EffectiveLimit(config.limits, stats, volume, global);
      if limitBefore.None? || limitAfter.None? { return Err(Overflow); }
      creatorStats := creatorStats[call.creator := stats];
      calls := calls[id := call];
      r := Ok(call);
    }

    method MarkSettled(caller: Address, id: nat) returns (r: Result<(), Error>)
      modifies this`calls
      ensures Follows(RegistryState.MarkSettled(old(State()), caller, id), old(State()), State(), r)
    {
      if caller != config.outcomeManager { return Err(Unauthorized); }
      if id !in calls { return Err(CallNotFound); }
      if calls[id].settled { return Err(CallSettled); }
      calls := calls[id := calls[id].(settled := true)];
      r := Ok(());
    }

    method VoidCall(caller: Address, id: nat) returns (r: Result<(), Error>)
      modifies this`calls
      ensures Follows(RegistryState.VoidCall(old(State()), caller, id), old(State()), State(), r)
    {
      if caller != config.admin { return Err(Unauthorized); }
      if id !in calls { return Err(CallNotFound); }
      if calls[id].voided { return Err(CallVoided); }
      if calls[id].settled { return Err(CallSettled); }
      calls := calls[id := calls[id].(voided := true)];
      r := Ok(());
    }

    method ClaimVoidRefund(staker: Address, id: nat) returns (r: Result<int, Error>)
      modifies this
      ensures Follows(RegistryState.ClaimVoidRefund(old(State()), staker, id), old(State()), State(), r)
      ensures r.Ok? ==> r.value == UserStake(State(), id, staker, 1) + UserStake(State(), id, staker, 2)
    {
      if id !in calls { return Err(CallNotFound); }
      if !calls[id].voided { return Err(NotVoided); }
      if (id, staker) in voidClaimed { return Err(AlreadyClaimed); }
      var up := UserStake(State(), id, staker, 1);
      var down := UserStake(State(), id, staker, 2);
      var refund := up + down;
      if !FitsI128(refund) { return Err(Overflow); }
      if refund <= 0 { return Err(NoStake); }
      var paid := TransferToken(calls[id].stakeToken, CONTRACT, staker, refund);
      if paid.Err? { return Err(paid.error); }
      voidClaimed := voidClaimed + {(id, staker)};
      r := Ok(refund);
    }

    method ClaimExpiredRefund(staker: Address, id: nat) returns (r: Result<int, Error>)
      modifies this
      ensures Follows(RegistryState.ClaimExpiredRefund(old(State()), staker, id), old(State()), State(), r)
      ensures r.Ok? ==> id in old(calls)
                        && r.value == UserStakeUpTo(old(State()), id, staker, old(calls)[id].outcomeCount)
    {
      if id !in calls { return Err(CallNotFound); }
      var call := calls[id];
      var deadline := call.endTs + config.gracePeriod;
      if deadline > U64_MAX { return Err(Overflow); }
      if now <= deadline { return Err(DelayNotElapsed); }
      if call.settled { return Err(CallSettled); }
      if call.voided { return Err(CallVoided); }
      if (id, staker) in expiredClaimed { return Err(AlreadyClaimed); }
      var refund := TotalUserStake(id, staker, call.outcomeCount);
      if !FitsI128(refund) { return Err(Overflow); }
      if refund <= 0 { return Err(NoStake); }
      var paid := TransferToken(call.stakeToken, CONTRACT, staker, refund);
      if paid.Err? { return Err(paid.error); }
      expiredClaimed := expiredClaimed + {(id, staker)};
      r := Ok(refund);
    }

    method CancelCall(creator: Address, id: nat) returns (r: Result<(), Error>)
      modifies this
      ensures Follows(RegistryState.CancelCall(old(State()), creator, id), old(State()), State(), r)
    {
      if id !in calls { return Err(CallNotFound); }
      var call := calls[id];
      if call.creator != creator { return Err(Unauthorized); }
      if call.settled { return Err(CallSettled); }
      if call.cancelled { return Err(CallCancelled); }
      var staked := TotalStaked(call);
      if !FitsI128(staked) { return Err(Overflow); }
      if staked > 0 { return Err(ActiveStakes); }
      var paid := TransferToken(call.stakeToken, CONTRACT, creator, call.stakeAmount);
      if paid.Err? { return Err(paid.error); }
      calls := calls[id := call.(cancelled := true)];
      r := Ok(());
    }

    method EmergencyCancelCall(caller: Address, id: nat) returns (r: Result<(), Error>)
      modifies this
      ensures Follows(RegistryState.EmergencyCancelCall(old(State()), caller, id), old(State()), State(), r)
    {
      if id !in calls { return Err(CallNotFound); }
      var call := calls[id];
      if call.settled { return Err(CallSettled); }
      if call.cancelled || call.voided { return Err(CallCancelled); }
      if caller != config.admin {
        if caller != call.creator { return Err(Unauthorized); }
        var staked := TotalStaked(call);
        if !FitsI128(staked) { return Err(Overflow); }
        if staked > 0 { return Err(ActiveStakes); }
        if call.endTs + EMERGENCY_CANCEL_DELAY > U64_MAX { return Err(Overflow); }
        if now <= call.endTs + EMERGENCY_CANCEL_DELAY { return Err(DelayNotElapsed); }
      }
      var paid := TransferToken(call.stakeToken, CONTRACT, call.creator, call.stakeAmount);
      if paid.Err? { return Err(paid.error); }
      call := call.(cancelled := true);
      call := call.(voided := true);
      calls := calls[id := call];
      r := Ok(());
    }

    method RedeemShares(redeemer: Address, id: nat) returns (r: Result<int, Error>)
      modifies this
      ensures Follows(RegistryState.RedeemShares(old(State()), redeemer, id), old(State()), State(), r)
      ensures r.Ok? ==> id in old(calls) && r.value == RedemptionPayout(old(State()), redeemer, id)
                        && ShareBalance(State(), id, old(calls)[id].outcome, redeemer) == 0
    {
      if id !in calls { return Err(CallNotFound); }
      var call := calls[id];
      if call.outcome == 0 { return Err(NotResolved); }
      if !call.settled { return Err(NotSettled); }
      var winning := call.outcome;
      if !call.hasShares { return Err(NoShareTokens); }
      var balance := ShareBalance(State(), id, winning, redeemer);
      if balance <= 0 { return Err(NoShares); }
      var totalWinning := Get(call.outcomeStakes, winning);
      var totalAll := TotalStaked(call);
      if !FitsI128(totalAll) || !FitsI128(balance * totalAll) { return Err(Overflow); }
      var payout := 0;
      if totalWinning > 0 { payout := balance * totalAll / totalWinning; }
      if payout <= 0 { return Err(ZeroPayout); }
      var paid := TransferToken(call.stakeToken, CONTRACT, redeemer, payout);
      if paid.Err? { return Err(paid.error); }
      shares := shares[(id, winning) := GetMap(shares, (id, winning))[redeemer := 0]];
      r := Ok(payout);
    }

    method TransferShares(from: Address, to: Address, id: nat, outcome: nat, amount: int) returns (r: Result<(), Error>)
      modifies this`shares
      ensures Follows(RegistryState.TransferShares(old(State()), from, to, id, outcome, amount), old(State()),
                      State(), r)
    {
      if id !in calls { return Err(CallNotFound); }
      if outcome < 1 || outcome > calls[id].outcomeCount { return Err(InvalidPosition); }
      if !calls[id].hasShares { return Err(NotInitialized); }
      if amount < 0 { return Err(InvalidTransfer); }
      var holders := GetMap(shares, (id, outcome));
      if Get(holders, from) < amount { return Err(InsufficientFunds); }
      holders := holders[from := Get(holders, from) - amount];
      if !FitsI128(Get(holders, to) + amount) { return Err(Overflow); }
      holders := holders[to := Get(holders, to) + amount];
      shares := shares[(id, outcome) := holders];
      r := Ok(());
    }

    method ReleaseEscrow(caller: Address, id: nat, to: Address, amount: int) returns (r: Result<(), Error>)
      modifies this`balances
      ensures Follows(RegistryState.ReleaseEscrow(old(State()), caller, id, to, amount), old(State()), State(), r)
    {
      if caller != config.outcomeManager { return Err(Unauthorized); }
      if id !in calls { return Err(CallNotFound); }
      r := TransferToken(calls[id].stakeToken, CONTRACT, to, amount);
    }

    /** All calls of a creator, by an unbounded scan. */
    method GetCallsByCreator(creator: Address) returns (result: seq<(nat, Call)>)
      ensures result == CallsFrom(State(), creator, 1)
    {
      result := [];
      for i := 1 to callCounter + 1
        invariant result + CallsFrom(State(), creator, i) == CallsFrom(State(), creator, 1)
      {
        ghost var rest := CallsFrom(State(), creator, i + 1);
        if i in calls && calls[i].creator == creator {
          assert result + ([(i, calls[i])] + rest) == (result + [(i, calls[i])]) + rest;
          result := result + [(i, calls[i])];
        }
      }
    }

    /** The page loop: at most `limit`, and never more than 20, calls of a creator. */
    method GetCallsByCreatorPaginated(creator: Address, startId: nat, limit: nat) returns (result: seq<(nat, Call)>)
      ensures result == Page(State(), creator, startId, limit) && |result| <= limit && |result| <= 20
    {
      hide RegistryState.StakeLimit, CallsFrom;
      result := [];
      var pageSize := if limit <= MAX_CALL_PAGE_SIZE then limit else MAX_CALL_PAGE_SIZE;
      if pageSize == 0 { return; }
      var current := if startId < 1 then 1 else startId;
      ghost var all := CallsFrom(State(), creator, current);
      while |result| < pageSize && current <= callCounter
        invariant |result| <= pageSize && current >= 1
        invariant result + CallsFrom(State(), creator, current) == all
        decreases callCounter - current
      {
        CallsFromUnfolds(State(), creator, current);
        ghost var rest := CallsFrom(State(), creator, current + 1);
        if current in calls && calls[current].creator == creator {
          assert result + ([(current, calls[current])] + rest) == (result + [(current, calls[current])]) + rest;
          result := result + [(current, calls[current])];
        }
        current := current + 1;
      }
      CallsFromUnfolds(State(), creator, current);
      assert |result| == pageSize || CallsFrom(State(), creator, current) == [];
    }
  }
}
