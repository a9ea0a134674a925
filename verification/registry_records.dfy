/** The creators' track records: exactly the calls they created, the resolutions of those
    calls, and the resolutions that found the creator's own stake on the outcome. */
module RegistryRecords {
  import opened Basics
  import opened Reputation
  import opened RegistryState
  import opened RegistryHistory
  import opened RegistryLedger
  import opened RegistryRefunds
  import opened RegistryEscrow

  /** The creator of a call has a stake on this outcome, read from the call's own staker map;
      outcomes above 2 do not count. */
  predicate CreatorBacked(s: Registry, id: nat, outcome: nat) {
    && id in s.calls && (outcome == 1 || outcome == 2)
    && Get(GetMap(s.calls[id].stakes, outcome), s.calls[id].creator) > 0
  }

  function CreatorOf(s: Registry, id: nat): Option<Address> {
    if id in s.calls then Some(s.calls[id].creator) else None
  }

  /** A resolution adds one to the creator's resolved calls, one to the correct ones exactly
      when the creator backed the outcome, and touches no other record. */
  lemma ResolutionCounts(w: World, caller: Address, id: nat, outcome: nat, endPrice: int, user: Address)
    requires Books(w) && ResolveCall(w.s, caller, id, outcome, endPrice).Ok?
    ensures var s', before := ResolveCall(w.s, caller, id, outcome, endPrice).value, StatsOf(w.s, user);
      StatsOf(s', user)
      == if CreatorOf(w.s, id) != Some(user) then before
         else CreatorStats(before.totalCreated, before.totalResolved + 1,
                           before.totalCorrect + if CreatorBacked(w.s, id, outcome) then 1 else 0)
  {
    hide EffectiveLimit, Books;
    ResolveShape(w.s, caller, id, outcome, endPrice);
    RecordIsEntry(w, w.s.calls[id].creator, id, outcome);
  }

  /** A creation adds one to the creator's calls and touches nothing else of any record. */
  lemma CreationCounts(s: Registry, op: Op, user: Address)
    requires op.OpCreate? && Execute(s, op).Ok?
    ensures StatsOf(Execute(s, op).value, user)
            == if user == op.creator then StatsOf(s, user).(totalCreated := StatsOf(s, user).totalCreated + 1)
               else StatsOf(s, user)
  {
    hide EmptyOutcomes, EmptyStakes;
  }

  lemma OtherOpKeepsRecords(s: Registry, op: Op, user: Address)
    requires Execute(s, op).Ok? && !op.OpCreate? && !op.OpResolve?
    ensures StatsOf(Execute(s, op).value, user) == StatsOf(s, user)
  {
    hide Execute, StakeLimit, CreditCall, Minted, Counted, BooksUntouched, LeaveCall;
    match op
    case OpStake(funder, staker, id, amount, position, delivered, qualifies) =>
      StakeKeepsRecords(s, op, user);
    case OpWithdraw(staker, id, position) => ExitKeepsRecords(s, op, user);
    case OpCancel(creator, id) => CancelKeepsRecords(s, op, user);
    case OpEmergencyCancel(caller, id) => CancelKeepsRecords(s, op, user);
    case OpSettle(caller, id) => FlagKeepsRecords(s, op, user);
    case OpVoid(caller, id) => FlagKeepsRecords(s, op, user);
    case _ => PaymentOpShape(s, op);
  }

  lemma StakeKeepsRecords(s: Registry, op: Op, user: Address)
    requires op.OpStake? && Execute(s, op).Ok?
    ensures StatsOf(Execute(s, op).value, user) == StatsOf(s, user)
  {
    hide Stake, CreditCall, Minted, Counted, StakeLimit;
    StakeShape(s, op.funder, op.staker, op.call, op.amount, op.position, op.delivered, op.qualifies);
  }

  lemma ExitKeepsRecords(s: Registry, op: Op, user: Address)
    requires op.OpWithdraw? && Execute(s, op).Ok?
    ensures StatsOf(Execute(s, op).value, user) == StatsOf(s, user)
  {
    hide WithdrawStake, LeaveCall;
    WithdrawShape(s, op.staker, op.call, op.position);
  }

  lemma CancelKeepsRecords(s: Registry, op: Op, user: Address)
    requires (op.OpCancel? || op.OpEmergencyCancel?) && Execute(s, op).Ok?
    ensures StatsOf(Execute(s, op).value, user) == StatsOf(s, user)
  {
    hide CancelCall, EmergencyCancelCall;
    if op.OpCancel? {
      CancelShape(s, op.creator, op.call);
    } else {
      EmergencyCancelShape(s, op.caller, op.call);
    }
  }

  lemma FlagKeepsRecords(s: Registry, op: Op, user: Address)
    requires (op.OpSettle? || op.OpVoid?) && Execute(s, op).Ok?
    ensures StatsOf(Execute(s, op).value, user) == StatsOf(s, user)
  {
  }

  // ---- Over runs ----

  /** What a run has added to a user's record. */
  datatype Added = Added(created: nat, resolved: nat, correct: nat)

  function AddedBy(s: Registry, op: Op, user: Address): Added {
    if Execute(s, op).Err? then Added(0, 0, 0)
    else if op.OpCreate? && op.creator == user then Added(1, 0, 0)
    else if op.OpResolve? && CreatorOf(s, op.call) == Some(user)
    then Added(0, 1, if CreatorBacked(s, op.call, op.outcome) then 1 else 0)
    else Added(0, 0, 0)
  }

  function AddedInRun(w: World, ops: seq<Op>, user: Address): Added
    decreases |ops|
  {
    if ops == [] then Added(0, 0, 0)
    else
      var first, rest := AddedBy(w.s, ops[0], user), AddedInRun(Next(w, ops[0]), ops[1..], user);
      Added(first.created + rest.created, first.resolved + rest.resolved, first.correct + rest.correct)
  }

  predicate Raised(before: CreatorStats, after: CreatorStats, added: Added) {
    after == CreatorStats(before.totalCreated + added.created, before.totalResolved + added.resolved,
                          before.totalCorrect + added.correct)
  }

  lemma StepRaises(w: World, op: Op, user: Address)
    requires Books(w)
    ensures Raised(StatsOf(w.s, user), StatsOf(Next(w, op).s, user), AddedBy(w.s, op, user))
  {
    hide StatsOf, CreateCall, ResolveCall, Books, CreatorBacked;
    if Execute(w.s, op).Ok? {
      if op.OpCreate? {
        CreationCounts(w.s, op, user);
      } else if op.OpResolve? {
        ResolutionCounts(w, op.caller, op.call, op.outcome, op.endPrice, user);
      } else {
        OtherOpKeepsRecords(w.s, op, user);
      }
    }
  }

  lemma {:induction false} RunRaises(w: World, ops: seq<Op>, user: Address)
    requires Books(w)
    ensures Raised(StatsOf(w.s, user), StatsOf(Run(w, ops).s, user), AddedInRun(w, ops, user))
    decreases |ops|
  {
    hide Next, Books, StatsOf, AddedBy;
    if ops != [] {
      StepRaises(w, ops[0], user);
      StepKeepsBooks(w, ops[0]);
      RunRaises(Next(w, ops[0]), ops[1..], user);
    }
  }

  function CallsOf(s: Registry, user: Address): set<nat> {
    set id | id in s.calls && s.calls[id].creator == user
  }

  /** The record counts the calls that are stored. */
  ghost predicate CreatedCounted(s: Registry) {
    && (forall user :: StatsOf(s, user).totalCreated == |CallsOf(s, user)|)
    && s.global.totalCalls == s.callCounter == |s.calls|
  }

  lemma StepKeepsCreated(w: World, op: Op)
    requires Books(w) && CreatedCounted(w.s)
    ensures CreatedCounted(Next(w, op).s)
  {
    hide Books, StatsOf, Execute, CallsOf, AddedBy;
    var s, s' := w.s, Next(w, op).s;
    forall user ensures StatsOf(s', user).totalCreated == |CallsOf(s', user)| {
      StepRaises(w, op, user);
      CallsOfAfter(w, op, user);
    }
    CountersAfter(w, op);
  }

  lemma OneMoreCall(s: Registry, s': Registry, id: nat, c: Call, user: Address)
    requires id !in s.calls && s'.calls == s.calls[id := c]
    ensures |CallsOf(s', user)| == |CallsOf(s, user)| + if c.creator == user then 1 else 0
  {
    assert CallsOf(s', user) == CallsOf(s, user) + if c.creator == user then {id} else {};
  }

  lemma SameCreatorsSameCalls(s: Registry, s': Registry, user: Address)
    requires s'.calls.Keys == s.calls.Keys && forall id :: id in s.calls ==> s'.calls[id].creator == s.calls[id].creator
    ensures CallsOf(s', user) == CallsOf(s, user)
  {
  }

  lemma CallsOfAfter(w: World, op: Op, user: Address)
    requires Books(w)
    ensures |CallsOf(Next(w, op).s, user)| == |CallsOf(w.s, user)| + AddedBy(w.s, op, user).created
  {
    hide StatsOf, CallsBalanced, RecordsAgree, EmptyOutcomes, EmptyStakes, CreatorBacked, CallsOf, CreateCall;
    if op.OpCreate? && Execute(w.s, op).Ok? {
      CreateShape(w.s, op.creator, op.token, op.stakeAmount, op.startPrice, op.endTs, op.outcomeCount);
      var id := w.s.callCounter + 1;
      OneMoreCall(w.s, Next(w, op).s, id, Next(w, op).s.calls[id], user);
    } else {
      SameCreators(w, op);
      SameCreatorsSameCalls(w.s, Next(w, op).s, user);
    }
  }

  /** Nothing but a creation adds a call, and the creator of a call stays. */
  lemma SameCreators(w: World, op: Op)
    requires op.OpCreate? ==> Execute(w.s, op).Err?
    ensures Next(w, op).s.calls.Keys == w.s.calls.Keys && Next(w, op).s.callCounter == w.s.callCounter
    ensures Next(w, op).s.global.totalCalls == w.s.global.totalCalls
    ensures forall id :: id in w.s.calls ==> Next(w, op).s.calls[id].creator == w.s.calls[id].creator
  {
    hide Execute, StakeLimit, Minted;
    if Execute(w.s, op).Ok? {
      if op.OpStake? {
        StakeKeepsCreators(w.s, op);
      } else if op.OpWithdraw? {
        ExitKeepsCreators(w.s, op);
      } else {
        QuietKeepsCreators(w, op);
      }
    }
  }

  lemma StakeKeepsCreators(s: Registry, op: Op)
    requires op.OpStake? && Execute(s, op).Ok?
    ensures var s' := Execute(s, op).value;
      && s'.calls.Keys == s.calls.Keys && s'.callCounter == s.callCounter && s'.global.totalCalls == s.global.totalCalls
      && forall id :: id in s.calls ==> s'.calls[id].creator == s.calls[id].creator
  {
    hide Stake, Minted, StakeLimit;
    StakeShape(s, op.funder, op.staker, op.call, op.amount, op.position, op.delivered, op.qualifies);
  }

  lemma ExitKeepsCreators(s: Registry, op: Op)
    requires op.OpWithdraw? && Execute(s, op).Ok?
    ensures var s' := Execute(s, op).value;
      && s'.calls.Keys == s.calls.Keys && s'.callCounter == s.callCounter && s'.global == s.global
      && forall id :: id in s.calls ==> s'.calls[id].creator == s.calls[id].creator
  {
    hide WithdrawStake, Penalty;
    WithdrawShape(s, op.staker, op.call, op.position);
  }

  lemma QuietKeepsCreators(w: World, op: Op)
    requires (FlagOp(op) || PaymentOp(op)) && Execute(w.s, op).Ok?
    ensures var s' := Execute(w.s, op).value;
      && s'.calls.Keys == w.s.calls.Keys && s'.callCounter == w.s.callCounter && s'.global == w.s.global
      && forall id :: id in w.s.calls ==> s'.calls[id].creator == w.s.calls[id].creator
  {
    hide Execute;
    OtherOpShape(w, op);
    if FlagOp(op) {
      FlagOpShape(w.s, op);
    } else {
      PaymentOpShape(w.s, op);
    }
    forall id | id in w.s.calls ensures Execute(w.s, op).value.calls[id].creator == w.s.calls[id].creator {
      assert SameLedgers(w.s.calls[id], Execute(w.s, op).value.calls[id]);
    }
  }

  lemma CountersAfter(w: World, op: Op)
    requires Books(w) && w.s.global.totalCalls == w.s.callCounter == |w.s.calls|
    ensures var s' := Next(w, op).s; s'.global.totalCalls == s'.callCounter == |s'.calls|
  {
    hide CallsBalanced, RecordsAgree, EmptyOutcomes, EmptyStakes;
    if op.OpCreate? && Execute(w.s, op).Ok? {
      CreateShape(w.s, op.creator, op.token, op.stakeAmount, op.startPrice, op.endTs, op.outcomeCount);
      assert w.s.callCounter + 1 !in w.s.calls;
    } else {
      SameCreators(w, op);
      assert |Next(w, op).s.calls| == |Next(w, op).s.calls.Keys| == |w.s.calls.Keys|;
    }
  }

  lemma {:induction false} RunKeepsCreated(w: World, ops: seq<Op>)
    requires Books(w) && CreatedCounted(w.s)
    ensures CreatedCounted(Run(w, ops).s)
    decreases |ops|
  {
    hide Next, Books, CreatedCounted;
    if ops != [] {
      StepKeepsBooks(w, ops[0]);
      StepKeepsCreated(w, ops[0]);
      RunKeepsCreated(Next(w, ops[0]), ops[1..]);
    }
  }

  lemma FreshRecords(s: Registry)
    requires Fresh(s)
    ensures CreatedCounted(s) && forall user :: StatsOf(s, user) == CreatorStats(0, 0, 0)
  {
    forall user ensures CallsOf(s, user) == {} {
    }
  }

  /** From deployment, for every run and user: the record shows the number of the user's
      calls, how often one of them was resolved, and how often with the user's own stake on
      the outcome. */
  lemma RecordsInEveryRun(s: Registry, ops: seq<Op>, user: Address)
    requires Fresh(s)
    ensures var t, added := Run(Deployed(s), ops).s, AddedInRun(Deployed(s), ops, user);
      && StatsOf(t, user) == CreatorStats(|CallsOf(t, user)|, added.resolved, added.correct)
      && t.global.totalCalls == |t.calls|
  {
    hide Run, Fresh, AddedInRun, StatsOf, CallsOf, Books;
    FreshRecords(s);
    DeployedBooks(s);
    RunRaises(Deployed(s), ops, user);
    RunKeepsCreated(Deployed(s), ops);
  }
}
