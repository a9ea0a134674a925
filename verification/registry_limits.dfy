/** The statistics behind the stake limit are consistent in every reachable state, so
    the limit is always within its bounds and every accepted stake is within the limit. */
module RegistryLimits {
  import opened Basics
  import opened Sums
  import opened Reputation
  import opened RegistryState
  import opened RegistryHistory
  import opened RegistryLedger

  /** No user has more correct than resolved calls, and the platform totals are the
      sum and the number of the users' own volumes. */
  ghost predicate StatsConsistent(s: Registry) {
    && (forall user :: StatsOf(s, user).totalCorrect <= StatsOf(s, user).totalResolved)
    && VolumesConsistent(s.volumes, s.global, s.stakerSeen)
  }

  ghost predicate VolumesConsistent(volumes: map<Address, int>, global: GlobalStats, seen: set<Address>) {
    && (forall user :: user in volumes ==> volumes[user] >= 0)
    && global.totalStakeVolume == Sum(volumes)
    && seen == volumes.Keys
    && global.totalUniqueStakers == |seen|
  }

  lemma CreditKeepsVolumes(volumes: map<Address, int>, global: GlobalStats, seen: set<Address>, staker: Address,
                           credited: int)
    requires VolumesConsistent(volumes, global, seen) && credited >= 0
    ensures VolumesConsistent(volumes[staker := Get(volumes, staker) + credited],
                              Counted(global, staker in seen, credited), seen + {staker})
  {
    hide Sum;
    SumUpdate(volumes, staker, Get(volumes, staker) + credited);
    OneMoreSeen(seen, staker);
  }

  lemma OneMoreSeen(seen: set<Address>, staker: Address)
    ensures |seen + {staker}| == |seen| + if staker in seen then 0 else 1
  {
    if staker in seen {
      assert seen + {staker} == seen;
    }
  }

  lemma CreditKeepsStats(s: Registry, staker: Address, id: nat, position: nat, credited: int)
    requires StatsConsistent(s) && id in s.calls && credited >= 0
    ensures StatsConsistent(CreditStake(s, staker, id, position, credited))
  {
    hide CreditCall, Minted, Counted, VolumesConsistent;
    CreditKeepsVolumes(s.volumes, s.global, s.stakerSeen, staker, credited);
    var s' := CreditStake(s, staker, id, position, credited);
    forall user ensures StatsOf(s', user) == StatsOf(s, user) {}
  }

  lemma StatsOnly(s: Registry, s': Registry)
    requires StatsConsistent(s) && s'.volumes == s.volumes && s'.stakerSeen == s.stakerSeen
    requires s'.global.totalStakeVolume == s.global.totalStakeVolume
    requires s'.global.totalUniqueStakers == s.global.totalUniqueStakers
    requires forall user :: StatsOf(s', user).totalCorrect - StatsOf(s, user).totalCorrect
                            <= StatsOf(s', user).totalResolved - StatsOf(s, user).totalResolved
    ensures StatsConsistent(s')
  {
  }

  lemma ResolveKeepsStats(s: Registry, caller: Address, id: nat, outcome: nat, endPrice: int)
    requires StatsConsistent(s) && ResolveCall(s, caller, id, outcome, endPrice).Ok?
    ensures StatsConsistent(ResolveCall(s, caller, id, outcome, endPrice).value)
  {
    hide EffectiveLimit, Sum;
    StatsOnly(s, ResolveCall(s, caller, id, outcome, endPrice).value);
  }

  lemma CreateKeepsStats(s: Registry, creator: Address, token: Address, stakeAmount: int, startPrice: int, endTs: nat,
                         n: nat)
    requires StatsConsistent(s) && CreateCall(s, creator, token, stakeAmount, startPrice, endTs, n).Ok?
    ensures StatsConsistent(CreateCall(s, creator, token, stakeAmount, startPrice, endTs, n).value)
  {
    hide Sum;
    StatsOnly(s, CreateCall(s, creator, token, stakeAmount, startPrice, endTs, n).value);
  }

  lemma StakeKeepsStats(s: Registry, funder: Address, staker: Address, id: nat, amount: int, position: nat,
                        delivered: int, qualifies: bool)
    requires StatsConsistent(s) && Stake(s, funder, staker, id, amount, position, delivered, qualifies).Ok?
    ensures StatsConsistent(Stake(s, funder, staker, id, amount, position, delivered, qualifies).value)
  {
    hide Stake, Sum, StakeLimit, Deposit;
    StakeShape(s, funder, staker, id, amount, position, delivered, qualifies);
    var s' := Stake(s, funder, staker, id, amount, position, delivered, qualifies).value;
    StatsOnly(s, s.(balances := s'.balances));
    CreditKeepsStats(s.(balances := s'.balances), staker, id, position,
                     Credited(s.calls[id].stakeToken, amount, delivered));
  }

  lemma OtherOpKeepsStats(s: Registry, op: Op)
    requires StatsConsistent(s) && Execute(s, op).Ok? && !op.OpCreate? && !op.OpStake? && !op.OpResolve?
    ensures StatsConsistent(Execute(s, op).value)
  {
    hide StatsConsistent, EffectiveLimit, BooksUntouched;
    if FlagOp(op) {
      FlagOpShape(s, op);
    } else if op.OpWithdraw? {
      WithdrawShape(s, op.staker, op.call, op.position);
    } else {
      PaymentOpShape(s, op);
    }
    StatsOnly(s, Execute(s, op).value);
  }

  lemma StepKeepsStats(w: World, op: Op)
    requires StatsConsistent(w.s)
    ensures StatsConsistent(Next(w, op).s)
  {
    hide StatsConsistent;
    if Execute(w.s, op).Ok? {
      match op
      case OpCreate(creator, token, stakeAmount, startPrice, endTs, n) =>
        CreateKeepsStats(w.s, creator, token, stakeAmount, startPrice, endTs, n);
      case OpStake(funder, staker, id, amount, position, delivered, qualifies) =>
        StakeKeepsStats(w.s, funder, staker, id, amount, position, delivered, qualifies);
      case OpResolve(caller, id, outcome, endPrice) =>
        ResolveKeepsStats(w.s, caller, id, outcome, endPrice);
      case _ =>
        OtherOpKeepsStats(w.s, op);
    }
  }

  lemma {:induction false} StatsStayConsistent(w: World, ops: seq<Op>)
    requires StatsConsistent(w.s)
    ensures StatsConsistent(Run(w, ops).s)
    decreases |ops|
  {
    if ops != [] {
      StepKeepsStats(w, ops[0]);
      StatsStayConsistent(Next(w, ops[0]), ops[1..]);
    }
  }

  lemma FreshStats(s: Registry)
    requires Fresh(s)
    ensures StatsConsistent(s)
  {
  }

  /** After any run of the contract: an accepted stake leaves the staker's position
      within the limit computed before it, the limit is at most twice the scaled base
      limit and at most the configured cap, and the credit is at most the request. */
  lemma AcceptedStakeWithinLimit(s0: Registry, ops: seq<Op>, funder: Address, staker: Address, id: nat, amount: int,
                                 position: nat, delivered: int, qualifies: bool)
    requires Fresh(s0)
    requires Stake(Run(Deployed(s0), ops).s, funder, staker, id, amount, position, delivered, qualifies).Ok?
    ensures var s := Run(Deployed(s0), ops).s;
      var s' := Stake(s, funder, staker, id, amount, position, delivered, qualifies).value;
      var limit := StakeLimit(s, staker);
      && limit.Some? && 0 < UserStake(s', id, staker, position) <= limit.value
      && (s.config.limits.baseStakeLimit > 0 ==> limit.value <= Ceiling(s.config.limits))
      && (s.config.limits.maxStakePerUser > 0 ==> limit.value <= s.config.limits.maxStakePerUser)
  {
    hide Sum, EffectiveLimit, Stake, Deposit, Fresh;
    var w := Run(Deployed(s0), ops);
    FreshStats(s0);
    DeployedBooks(s0);
    LedgersAgree(Deployed(s0), ops);
    StatsStayConsistent(Deployed(s0), ops);
    StakeShape(w.s, funder, staker, id, amount, position, delivered, qualifies);
    LimitBounds(w.s.config.limits, StatsOf(w.s, staker), Get(w.s.volumes, staker), w.s.global);
    assert CallBalanced(w.h.forfeited, id, w.s.calls[id]);
    assert PositionBalanced(Get(w.s.calls[id].outcomeStakes, position), GetMap(w.s.calls[id].stakes, position),
                            Get(w.h.forfeited, (id, position)));
  }

  lemma ProperRecord(s: Registry, user: Address)
    requires StatsConsistent(s)
    ensures StatsOf(s, user).totalCorrect <= StatsOf(s, user).totalResolved && Get(s.volumes, user) >= 0
  {
    hide Sum;
  }

  /** What a credited stake changes of what the staker's limit depends on. */
  lemma CreditedInputs(s: Registry, staker: Address, id: nat, position: nat, credited: int)
    requires id in s.calls
    ensures var s' := CreditStake(s, staker, id, position, credited);
      && s'.config == s.config && StatsOf(s', staker) == StatsOf(s, staker)
      && Get(s'.volumes, staker) == Get(s.volumes, staker) + credited
      && s'.global == Counted(s.global, staker in s.stakerSeen, credited)
  {
    hide CreditCall, Minted, Counted;
  }

  /** What a stake does to the staker's own limit, which depends on the staker's volume and
      on the platform totals that the same stake raises: it is kept exactly when limits do
      not depend on volume for this user, or the volume after the stake reaches, against the
      average after the stake, the least factor that gives the limit before it. */
  lemma CreditKeepsLimitIff(s: Registry, staker: Address, id: nat, position: nat, credited: int)
    requires StatsConsistent(s) && id in s.calls && credited > 0 && StakeLimit(s, staker).Some?
    requires StakeLimit(CreditStake(s, staker, id, position, credited), staker).Some?
    ensures var s', cfg, stats := CreditStake(s, staker, id, position, credited), s.config.limits, StatsOf(s, staker);
      var limit := StakeLimit(s, staker).value;
      StakeLimit(s', staker).value >= limit
      <==> || cfg.baseStakeLimit <= 0 || stats.totalResolved < NEW_USER_RESOLVED_THRESHOLD
           || VolumeReaches(Counted(s.global, staker in s.stakerSeen, credited), Get(s.volumes, staker) + credited,
                            NeededFactor(Scaled(cfg.baseStakeLimit, cfg.reputationMultiplier, AccuracyBps(stats)),
                                         limit))
  {
    hide EffectiveLimit, CreditStake, Counted, Scaled, AccuracyBps, VolumeReaches, NeededFactor, StatsConsistent,
         StatsOf;
    ProperRecord(s, staker);
    CreditedInputs(s, staker, id, position, credited);
    LimitKeptIff(s.config.limits, StatsOf(s, staker), Get(s.volumes, staker), s.global,
                 Get(s.volumes, staker) + credited, Counted(s.global, staker in s.stakerSeen, credited));
  }

  /** Token balances play no part in the limits. */
  lemma BalancesDoNotLimit(s: Registry, balances: Balances, staker: Address)
    requires StatsConsistent(s)
    ensures StatsConsistent(s.(balances := balances))
    ensures StakeLimit(s.(balances := balances), staker) == StakeLimit(s, staker)
  {
    forall user ensures StatsOf(s.(balances := balances), user) == StatsOf(s, user) {
    }
  }

  /** The same for an accepted stake. */
  lemma StakeKeepsLimitIff(s: Registry, funder: Address, staker: Address, id: nat, amount: int, position: nat,
                           delivered: int, qualifies: bool)
    requires StatsConsistent(s) && Stake(s, funder, staker, id, amount, position, delivered, qualifies).Ok?
    requires StakeLimit(Stake(s, funder, staker, id, amount, position, delivered, qualifies).value, staker).Some?
    ensures LimitKeptExactly(s, Stake(s, funder, staker, id, amount, position, delivered, qualifies).value, staker)
  {
    hide StatsConsistent, EffectiveLimit, Stake, Deposit, CreditCall, Minted, Scaled, AccuracyBps, VolumeReaches,
         NeededFactor, StakeLimit;
    StakeShape(s, funder, staker, id, amount, position, delivered, qualifies);
    var paid := Stake(s, funder, staker, id, amount, position, delivered, qualifies).value.balances;
    BalancesDoNotLimit(s, paid, staker);
    CreditKeepsLimitIff(s.(balances := paid), staker, id, position,
                        Credited(s.calls[id].stakeToken, amount, delivered));
  }

  /** After a stake that moved s to s', the staker's limit is kept exactly when it does not
      depend on volume or the new volume reaches the factor that the old limit needs. */
  predicate LimitKeptExactly(s: Registry, s': Registry, staker: Address) {
    var cfg, stats := s.config.limits, StatsOf(s, staker);
    StakeLimit(s, staker).Some? && StakeLimit(s', staker).Some?
    && (StakeLimit(s', staker).value >= StakeLimit(s, staker).value
        <==> || cfg.baseStakeLimit <= 0 || stats.totalResolved < NEW_USER_RESOLVED_THRESHOLD
             || VolumeReaches(s'.global, Get(s'.volumes, staker),
                              NeededFactor(Scaled(cfg.baseStakeLimit, cfg.reputationMultiplier, AccuracyBps(stats)),
                                           StakeLimit(s, staker).value)))
  }

  /** ... and for every stake accepted after any run from a fresh deployment. */
  lemma AcceptedStakeKeepsLimitIff(s0: Registry, ops: seq<Op>, funder: Address, staker: Address, id: nat, amount: int,
                                   position: nat, delivered: int, qualifies: bool)
    requires Fresh(s0)
    requires var s := Run(Deployed(s0), ops).s;
      && Stake(s, funder, staker, id, amount, position, delivered, qualifies).Ok?
      && StakeLimit(Stake(s, funder, staker, id, amount, position, delivered, qualifies).value, staker).Some?
    ensures var s := Run(Deployed(s0), ops).s;
      LimitKeptExactly(s, Stake(s, funder, staker, id, amount, position, delivered, qualifies).value, staker)
  {
    hide StatsConsistent, Stake, StakeLimit, Run, Fresh, LimitKeptExactly;
    FreshStats(s0);
    StatsStayConsistent(Deployed(s0), ops);
    StakeKeepsLimitIff(Run(Deployed(s0), ops).s, funder, staker, id, amount, position, delivered, qualifies);
  }
}
