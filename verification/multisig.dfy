/** Proposals of the registry's admin set: proposed, approved, vetoed, cancelled and,
    behind a timelock and a threshold, executed. */
module Multisig {
  import opened Basics
  import RegistryState

  const MAX_FEE_BPS: nat := 10_000

  datatype Error = NotFound | InvalidInput | NotReady | Unauthorized | FeeTooHigh | InvalidThreshold | Overflow
    | TokenTrap(trap: RegistryState.Error)

  datatype Operation = SetFee(feeBps: nat) | SetMinStake(minStake: int) | SetAdminThreshold(threshold: nat) | Pause
    | Unpause | Upgrade | WithdrawFees(token: Address, amount: int) | AddAdmin(added: Address)
    | RemoveAdmin(removed: Address)

  datatype Status = Active | Vetoed | Executed

  datatype Proposal = Proposal(proposer: Address, operation: Operation, approvals: seq<Address>, createdAt: nat,
                               timelockUntil: nat, status: Status)

  datatype Config = Config(admin: Address, adminSet: seq<Address>, threshold: nat, feeBps: nat, minStake: int,
                           paused: bool)

  datatype Council = Council(now: nat, config: Config, proposalCounter: nat, proposals: map<nat, Proposal>,
                             balances: RegistryState.Balances)

  type Outcome = Result<Council, Error>

  function Propose(s: Council, proposer: Address, operation: Operation, timelock: nat): Outcome {
    var id := s.proposalCounter + 1;
    if id > U64_MAX || s.now + timelock > U64_MAX then Err(Overflow)
    else Ok(s.(proposalCounter := id,
               proposals := s.proposals[id := Proposal(proposer, operation, [], s.now, s.now + timelock, Active)]))
  }

  /** Approving twice is accepted and changes nothing. Whether the signer is in the
      admin set is not looked at. */
  function Approve(s: Council, signer: Address, id: nat): Outcome {
    if id !in s.proposals then Err(NotFound)
    else if s.proposals[id].status != Active then Err(InvalidInput)
    else if signer in s.proposals[id].approvals then Ok(s)
    else
      var p := s.proposals[id];
      Ok(s.(proposals := s.proposals[id := p.(approvals := p.approvals + [signer])]))
  }

  function Veto(s: Council, id: nat): Outcome {
    if id !in s.proposals then Err(NotFound)
    else if s.proposals[id].status != Active then Err(InvalidInput)
    else Ok(s.(proposals := s.proposals[id := s.proposals[id].(status := Vetoed)]))
  }

  function Without(admins: seq<Address>, removed: Address): seq<Address> {
    if admins == [] then []
    else Without(admins[..|admins| - 1], removed)
         + if admins[|admins| - 1] == removed then [] else [admins[|admins| - 1]]
  }

  /** The effect of an operation on the settings. */
  function Perform(s: Council, operation: Operation): Outcome {
    var config := s.config;
    match operation
    case SetFee(fee) => if fee > MAX_FEE_BPS then Err(FeeTooHigh) else Ok(s.(config := config.(feeBps := fee)))
    case SetMinStake(min) => if min < 0 then Err(InvalidInput) else Ok(s.(config := config.(minStake := min)))
    case SetAdminThreshold(t) => Ok(s.(config := config.(threshold := t)))
    case Pause => Ok(s.(config := config.(paused := true)))
    case Unpause => Ok(s.(config := config.(paused := false)))
    case Upgrade => Ok(s)
    case WithdrawFees(token, amount) =>
      if amount <= 0 then Err(InvalidInput)
      else
        (match RegistryState.Transfer(s.balances, token, RegistryState.CONTRACT, config.admin, amount)
         case Err(e) => Err(TokenTrap(e))
         case Ok(paid) => Ok(s.(balances := paid)))
    case AddAdmin(a) =>
      Ok(if a in config.adminSet then s else s.(config := config.(adminSet := config.adminSet + [a])))
    case RemoveAdmin(a) => Ok(s.(config := config.(adminSet := Without(config.adminSet, a))))
  }

  /** Anyone may execute; without an admin set the main admin must have signed. */
  function Execute(s: Council, signers: set<Address>, id: nat): Outcome {
    if id !in s.proposals then Err(NotFound)
    else
      var p := s.proposals[id];
      if p.status != Active then Err(InvalidInput)
      else if s.now < p.timelockUntil then Err(NotReady)
      else if s.config.adminSet != [] && |p.approvals| < s.config.threshold then Err(Unauthorized)
      else if s.config.adminSet == [] && s.config.admin !in signers then Err(Unauthorized)
      else
        match Perform(s, p.operation)
        case Err(e) => Err(e)
        case Ok(t) => Ok(t.(proposals := t.proposals[id := p.(status := Executed)]))
  }

  function Cancel(s: Council, id: nat): Outcome {
    if id !in s.proposals then Err(NotFound)
    else
      var p := s.proposals[id];
      if p.status != Active then Err(InvalidInput)
      else if s.now < p.timelockUntil then Err(NotReady)
      else if s.config.adminSet != [] && |p.approvals| >= s.config.threshold then Err(InvalidInput)
      else Ok(s.(proposals := s.proposals - {id}))
  }

  function SetAdmin(s: Council, signer: Address, newAdmin: Address): Outcome {
    if signer != s.config.admin then Err(Unauthorized) else Ok(s.(config := s.config.(admin := newAdmin)))
  }

  function SetAdminSet(s: Council, signer: Address, admins: seq<Address>, threshold: nat): Outcome {
    if signer != s.config.admin then Err(Unauthorized)
    else if threshold == 0 || threshold > |admins| then Err(InvalidThreshold)
    else Ok(s.(config := s.config.(adminSet := admins, threshold := threshold)))
  }

  /** One transaction; `signer` is the address that authorised it. Anything else the
      registry does may replace the token balances, but not the council's own data. */
  datatype Op =
    | OpPropose(proposer: Address, operation: Operation, timelock: nat)
    | OpApprove(signer: Address, id: nat)
    | OpVeto(signer: Address, id: nat)
    | OpExecute(signers: set<Address>, id: nat)
    | OpCancel(id: nat)
    | OpSetAdmin(signer: Address, newAdmin: Address)
    | OpSetAdminSet(signer: Address, admins: seq<Address>, newThreshold: nat)
    | OpClock(elapsed: nat)
    | OpBalances(balances: RegistryState.Balances)

  function Dispatch(s: Council, op: Op): Outcome {
    match op
    case OpPropose(proposer, operation, timelock) => Propose(s, proposer, operation, timelock)
    case OpApprove(signer, id) => Approve(s, signer, id)
    case OpVeto(_, id) => Veto(s, id)
    case OpExecute(signers, id) => Execute(s, signers, id)
    case OpCancel(id) => Cancel(s, id)
    case OpSetAdmin(signer, newAdmin) => SetAdmin(s, signer, newAdmin)
    case OpSetAdminSet(signer, admins, threshold) => SetAdminSet(s, signer, admins, threshold)
    case OpClock(elapsed) => Ok(s.(now := s.now + elapsed))
    case OpBalances(balances) => Ok(s.(balances := balances))
  }

  function Next(s: Council, op: Op): Council {
    match Dispatch(s, op)
    case Ok(t) => t
    case Err(_) => s
  }

  function Run(s: Council, ops: seq<Op>): Council {
    if ops == [] then s else Next(Run(s, ops[..|ops| - 1]), ops[|ops| - 1])
  }

  predicate Fresh(s: Council) {
    s.proposalCounter == 0 && s.proposals == map[]
  }
}

/** What every run guarantees about a proposal. */
module MultisigRuns {
  import opened Basics
  import opened Multisig

  /** The proposal will never be executed: it was executed, vetoed or removed. */
  predicate Finished(s: Council, id: nat) {
    id <= s.proposalCounter && (id in s.proposals ==> s.proposals[id].status != Active)
  }

  predicate IdsInPast(s: Council) {
    forall id :: id in s.proposals ==> 1 <= id <= s.proposalCounter
  }

  lemma PerformKeepsProposals(s: Council, operation: Operation)
    requires Perform(s, operation).Ok?
    ensures var t := Perform(s, operation).value;
      t.proposals == s.proposals && t.proposalCounter == s.proposalCounter && t.now == s.now
  {
    hide Without, RegistryState.Transfer;
  }

  lemma StepKeepsFinished(s: Council, op: Op, id: nat)
    requires IdsInPast(s) && Finished(s, id)
    ensures Finished(Next(s, op), id)
  {
    hide Perform;
    if op.OpExecute? && Dispatch(s, op).Ok? {
      PerformKeepsProposals(s, s.proposals[op.id].operation);
    }
  }

  lemma StepKeepsIds(s: Council, op: Op)
    requires IdsInPast(s)
    ensures IdsInPast(Next(s, op))
  {
    hide Perform;
    if op.OpExecute? && Dispatch(s, op).Ok? {
      PerformKeepsProposals(s, s.proposals[op.id].operation);
    }
  }

  /** Executing, vetoing and cancelling finish a proposal. */
  lemma ClosingFinishes(s: Council, op: Op, id: nat)
    requires IdsInPast(s) && Dispatch(s, op).Ok?
    requires (op.OpExecute? || op.OpVeto? || op.OpCancel?) && op.id == id
    ensures Finished(Next(s, op), id)
  {
    hide Perform;
    if op.OpExecute? {
      PerformKeepsProposals(s, s.proposals[id].operation);
    }
  }

  lemma {:induction false} RunKeepsIds(s: Council, ops: seq<Op>)
    requires Fresh(s)
    ensures IdsInPast(Run(s, ops))
  {
    hide Next;
    if ops != [] {
      RunKeepsIds(s, ops[..|ops| - 1]);
      StepKeepsIds(Run(s, ops[..|ops| - 1]), ops[|ops| - 1]);
    }
  }

  /** The op at this index of the run, an entry point for this proposal, succeeded. */
  predicate Succeeds(s: Council, ops: seq<Op>, i: nat) {
    i < |ops| && Dispatch(Run(s, ops[..i]), ops[i]).Ok?
  }

  predicate Closes(op: Op, id: nat) {
    (op.OpExecute? || op.OpVeto? || op.OpCancel?) && op.id == id
  }

  lemma RunStep(s: Council, ops: seq<Op>, i: nat)
    requires i < |ops|
    ensures Run(s, ops[..i + 1]) == Next(Run(s, ops[..i]), ops[i])
  {
    hide Next;
    assert ops[..i + 1][..i] == ops[..i] && |ops[..i + 1]| == i + 1;
  }

  lemma {:induction false} FinishedForGood(s: Council, ops: seq<Op>, i: nat, j: nat, id: nat)
    requires Fresh(s) && i <= j <= |ops| && Finished(Run(s, ops[..i]), id)
    ensures Finished(Run(s, ops[..j]), id)
    decreases j
  {
    hide Next, Run, Finished, IdsInPast;
    if i < j {
      FinishedForGood(s, ops, i, j - 1, id);
      RunKeepsIds(s, ops[..j - 1]);
      RunStep(s, ops, j - 1);
      StepKeepsFinished(Run(s, ops[..j - 1]), ops[j - 1], id);
    }
  }

  /** After a proposal has been executed, vetoed or cancelled, nothing executes, vetoes or
      cancels it again: in particular it is executed at most once. */
  lemma ClosedOnce(s: Council, ops: seq<Op>, i: nat, j: nat, id: nat)
    requires Fresh(s) && i < j < |ops| && Succeeds(s, ops, i) && Closes(ops[i], id) && Closes(ops[j], id)
    ensures !Succeeds(s, ops, j)
  {
    hide Next, Run, IdsInPast, Perform;
    RunKeepsIds(s, ops[..i]);
    RunStep(s, ops, i);
    ClosingFinishes(Run(s, ops[..i]), ops[i], id);
    FinishedForGood(s, ops, i + 1, j, id);
  }

  /** The addresses whose approval of the proposal was accepted in the run. */
  function SignedBy(s: Council, ops: seq<Op>, id: nat): set<Address> {
    if ops == [] then {}
    else SignedBy(s, ops[..|ops| - 1], id) + NewSigner(Run(s, ops[..|ops| - 1]), ops[|ops| - 1], id)
  }

  function NewSigner(s: Council, op: Op, id: nat): set<Address> {
    if op.OpApprove? && op.id == id && Dispatch(s, op).Ok? then {op.signer} else {}
  }

  predicate DistinctElements(a: seq<Address>) {
    forall i, j :: 0 <= i < j < |a| ==> a[i] != a[j]
  }

  function Elements(a: seq<Address>): set<Address> {
    set x | x in a
  }

  /** The stored approvals are distinct and are exactly those signed. */
  predicate Recorded(s: Council, id: nat, signed: set<Address>) {
    && (id in s.proposals ==> DistinctElements(s.proposals[id].approvals)
                              && Elements(s.proposals[id].approvals) == signed)
    && (id > s.proposalCounter ==> signed == {})
  }

  lemma StepKeepsRecorded(s: Council, op: Op, id: nat, signed: set<Address>)
    requires IdsInPast(s) && Recorded(s, id, signed)
    ensures Recorded(Next(s, op), id, signed + NewSigner(s, op, id))
  {
    hide Perform;
    if Dispatch(s, op).Ok? {
      if op.OpExecute? {
        PerformKeepsProposals(s, s.proposals[op.id].operation);
      }
      if op.OpApprove? && op.id == id {
        var approvals := s.proposals[id].approvals;
        assert Elements(approvals + [op.signer]) == Elements(approvals) + {op.signer};
      } else {
        assert signed + NewSigner(s, op, id) == signed;
      }
    }
  }

  lemma {:induction false} RunKeepsRecorded(s: Council, ops: seq<Op>, id: nat)
    requires Fresh(s)
    ensures Recorded(Run(s, ops), id, SignedBy(s, ops, id))
  {
    hide Next, NewSigner;
    if ops != [] {
      RunKeepsIds(s, ops[..|ops| - 1]);
      RunKeepsRecorded(s, ops[..|ops| - 1], id);
      StepKeepsRecorded(Run(s, ops[..|ops| - 1]), ops[|ops| - 1], id, SignedBy(s, ops[..|ops| - 1], id));
    }
  }

  /** What every transaction keeps: numbers in the past and nobody's approval twice. */
  predicate Sound(s: Council) {
    IdsInPast(s) && forall id :: id in s.proposals ==> DistinctElements(s.proposals[id].approvals)
  }

  lemma StepKeepsSound(s: Council, op: Op)
    requires Sound(s)
    ensures Sound(Next(s, op))
  {
    hide Next, DistinctElements;
    StepKeepsIds(s, op);
    forall id | id in Next(s, op).proposals ensures DistinctElements(Next(s, op).proposals[id].approvals) {
      StepKeepsRecorded(s, op, id, if id in s.proposals then Elements(s.proposals[id].approvals) else {});
    }
  }

  lemma {:induction false} DistinctCount(a: seq<Address>)
    requires DistinctElements(a)
    ensures |Elements(a)| == |a|
  {
    if a != [] {
      var prior, last := a[..|a| - 1], a[|a| - 1];
      DistinctCount(prior);
      assert last !in Elements(prior);
      assert Elements(a) == Elements(prior) + {last};
    }
  }

  /** If the admin set is not empty when a proposal is executed, at least the threshold
      number of different addresses have signed for it in the run. */
  lemma ExecutionHasSignatures(s: Council, ops: seq<Op>, signers: set<Address>, id: nat)
    requires Fresh(s) && Execute(Run(s, ops), signers, id).Ok?
    ensures var t := Run(s, ops);
      if t.config.adminSet == [] then t.config.admin in signers
      else |SignedBy(s, ops, id)| >= t.config.threshold
  {
    hide Perform, Run, SignedBy;
    RunKeepsRecorded(s, ops, id);
    DistinctCount(Run(s, ops).proposals[id].approvals);
  }

  /** Where a stored proposal comes from: one successful proposing transaction, whose
      operation, proposer and timelock it still carries. */
  predicate ProposedAt(s: Council, ops: seq<Op>, i: nat, id: nat, p: Proposal) {
    && i < |ops| && ops[i].OpPropose?
    && ops[i].operation == p.operation && ops[i].proposer == p.proposer
    && p.timelockUntil == Run(s, ops[..i]).now + ops[i].timelock
    && Run(s, ops[..i]).proposalCounter + 1 == id
  }

  predicate SameOrigin(p: Proposal, q: Proposal) {
    p.operation == q.operation && p.proposer == q.proposer && p.timelockUntil == q.timelockUntil
  }

  lemma StepKeepsOrigin(s: Council, op: Op, id: nat)
    requires IdsInPast(s) && id in Next(s, op).proposals
    ensures if id in s.proposals
            then SameOrigin(s.proposals[id], Next(s, op).proposals[id])
            else op.OpPropose? && id == s.proposalCounter + 1
                 && SameOrigin(Proposal(op.proposer, op.operation, [], s.now, s.now + op.timelock, Active),
                               Next(s, op).proposals[id])
  {
    hide Perform;
    if op.OpExecute? && Dispatch(s, op).Ok? {
      PerformKeepsProposals(s, s.proposals[op.id].operation);
    }
  }

  lemma {:induction false} ProposalsHaveOrigins(s: Council, ops: seq<Op>, id: nat) returns (i: nat)
    requires Fresh(s) && id in Run(s, ops).proposals
    ensures ProposedAt(s, ops, i, id, Run(s, ops).proposals[id])
  {
    hide Next;
    var prior, op := ops[..|ops| - 1], ops[|ops| - 1];
    var before := Run(s, prior);
    RunKeepsIds(s, prior);
    StepKeepsOrigin(before, op, id);
    if id in before.proposals {
      i := ProposalsHaveOrigins(s, prior, id);
      assert prior[..i] == ops[..i] && prior[i] == ops[i];
    } else {
      i := |ops| - 1;
    }
  }

  /** A proposal is executed only after it was proposed and only when its timelock,
      counted from that moment, has passed. */
  lemma NeverBeforeTimelock(s: Council, ops: seq<Op>, signers: set<Address>, id: nat) returns (i: nat)
    requires Fresh(s) && Execute(Run(s, ops), signers, id).Ok?
    ensures ProposedAt(s, ops, i, id, Run(s, ops).proposals[id])
    ensures Run(s, ops[..i]).now + ops[i].timelock <= Run(s, ops).now
  {
    hide Perform, Run, Next;
    i := ProposalsHaveOrigins(s, ops, id);
  }

  // ---- The admin list ----

  lemma {:induction false} WithoutRemoves(admins: seq<Address>, removed: Address)
    ensures Elements(Without(admins, removed)) == Elements(admins) - {removed}
    ensures DistinctElements(admins) ==> DistinctElements(Without(admins, removed))
  {
    if admins != [] {
      var prior, last := admins[..|admins| - 1], admins[|admins| - 1];
      WithoutRemoves(prior, removed);
      assert Elements(admins) == Elements(prior) + {last};
      var kept := Without(prior, removed);
      assert forall x :: x in kept <==> x in Elements(kept);
      assert Elements(kept + [last]) == Elements(kept) + {last};
    }
  }

  /** Executed membership changes do what they say to the set of admins and never
      introduce a duplicate. */
  lemma MembershipChanges(s: Council, operation: Operation)
    requires operation.AddAdmin? || operation.RemoveAdmin?
    ensures Perform(s, operation).Ok?
    ensures var before, after := s.config.adminSet, Perform(s, operation).value.config.adminSet;
      && Elements(after) == (if operation.AddAdmin? then Elements(before) + {operation.added}
                             else Elements(before) - {operation.removed})
      && (DistinctElements(before) ==> DistinctElements(after))
  {
    if operation.RemoveAdmin? {
      WithoutRemoves(s.config.adminSet, operation.removed);
    } else if operation.added !in s.config.adminSet {
      assert Elements(s.config.adminSet + [operation.added]) == Elements(s.config.adminSet) + {operation.added};
    }
  }

  // ---- Membership of the signers is not checked ----

  /** The approvals that come from members of the admin set. */
  function MemberApprovals(s: Council, id: nat): set<Address>
    requires id in s.proposals
  {
    Elements(s.proposals[id].approvals) * Elements(s.config.adminSet)
  }

  function ApproveAll(signers: seq<Address>): seq<Op> {
    if signers == [] then [] else ApproveAll(signers[..|signers| - 1]) + [OpApprove(signers[|signers| - 1], 1)]
  }

  /** The council with one proposal that these addresses have approved. */
  function WithApprovals(s: Council, proposer: Address, signers: seq<Address>): Council {
    s.(proposalCounter := 1, proposals := map[1 := Proposal(proposer, Pause, signers, s.now, s.now, Active)])
  }

  lemma OneMoreApproval(s: Council, proposer: Address, signers: seq<Address>, last: Address)
    requires last !in signers
    ensures Next(WithApprovals(s, proposer, signers), OpApprove(last, 1))
            == WithApprovals(s, proposer, signers + [last])
  {
    hide Perform;
  }

  lemma FirstProposal(s: Council, proposer: Address)
    requires Fresh(s) && s.now <= U64_MAX
    ensures Next(s, OpPropose(proposer, Pause, 0)) == WithApprovals(s, proposer, [])
  {
    hide Perform;
  }

  lemma {:induction false} ApprovalsPileUp(s: Council, proposer: Address, signers: seq<Address>)
    requires Fresh(s) && s.now <= U64_MAX && DistinctElements(signers)
    ensures Run(s, [OpPropose(proposer, Pause, 0)] + ApproveAll(signers)) == WithApprovals(s, proposer, signers)
  {
    hide Next, WithApprovals;
    var propose := [OpPropose(proposer, Pause, 0)];
    if signers == [] {
      assert propose + [] == propose && propose[..0] == [];
      FirstProposal(s, proposer);
    } else {
      var prior, last := signers[..|signers| - 1], signers[|signers| - 1];
      ApprovalsPileUp(s, proposer, prior);
      var ops := propose + ApproveAll(signers);
      assert ops[..|ops| - 1] == propose + ApproveAll(prior) && ops[|ops| - 1] == OpApprove(last, 1);
      assert prior + [last] == signers;
      OneMoreApproval(s, proposer, prior, last);
    }
  }

  /** Whatever the admin set and the threshold, as many strangers as the threshold asks
      for can propose, approve and execute without a single member. */
  lemma StrangersCanReachTheThreshold(s: Council, strangers: seq<Address>)
    requires Fresh(s) && s.now <= U64_MAX && s.config.adminSet != [] && s.config.threshold >= 1
    requires DistinctElements(strangers) && Elements(strangers) !! Elements(s.config.adminSet)
    requires |strangers| == s.config.threshold
    ensures var t := Run(s, [OpPropose(strangers[0], Pause, 0)] + ApproveAll(strangers));
      Execute(t, {}, 1).Ok? && MemberApprovals(t, 1) == {}
  {
    ApprovalsPileUp(s, strangers[0], strangers);
  }

  /** What the settings are documented to mean: whatever is proposed and signed by whomever,
      nothing executes under a set of admins without the threshold of members. */
  ghost predicate MembersDecide(s: Council) {
    forall ops, signers, id ::
      Execute(Run(s, ops), signers, id).Ok? && Run(s, ops).config == s.config && s.config.adminSet != []
      ==> |MemberApprovals(Run(s, ops), id)| >= s.config.threshold
  }

  function HighestId(admins: seq<Address>): nat {
    if admins == [] then 0
    else if admins[|admins| - 1].id > HighestId(admins[..|admins| - 1]) then admins[|admins| - 1].id
    else HighestId(admins[..|admins| - 1])
  }

  lemma {:induction false} HighestIdBounds(admins: seq<Address>)
    ensures forall a :: a in admins ==> a.id <= HighestId(admins)
  {
    if admins != [] {
      HighestIdBounds(admins[..|admins| - 1]);
      assert admins == admins[..|admins| - 1] + [admins[|admins| - 1]];
    }
  }

  /** As many different addresses outside a list as one likes. */
  function Outsiders(admins: seq<Address>, n: nat): (outsiders: seq<Address>)
    ensures |outsiders| == n
  {
    seq(n, i requires 0 <= i < n => Address(HighestId(admins) + 1 + i))
  }

  lemma OutsidersAreOutside(admins: seq<Address>, n: nat)
    ensures DistinctElements(Outsiders(admins, n)) && Elements(Outsiders(admins, n)) !! Elements(admins)
  {
    HighestIdBounds(admins);
  }

  /** The settings keep what is documented exactly when there is nothing to keep: no admin
      set, or a threshold of zero. */
  lemma MembersDecideIff(s: Council)
    requires Fresh(s) && s.now <= U64_MAX
    ensures MembersDecide(s) <==> s.config.adminSet == [] || s.config.threshold == 0
  {
    hide Run, Execute, Outsiders, Elements, DistinctElements, ApproveAll;
    if s.config.adminSet != [] && s.config.threshold > 0 {
      var strangers := Outsiders(s.config.adminSet, s.config.threshold);
      OutsidersAreOutside(s.config.adminSet, s.config.threshold);
      StrangersCanReachTheThreshold(s, strangers);
      ApprovalsPileUp(s, strangers[0], strangers);
      var ops := [OpPropose(strangers[0], Pause, 0)] + ApproveAll(strangers);
      assert Execute(Run(s, ops), {}, 1).Ok? && |MemberApprovals(Run(s, ops), 1)| == 0;
    }
  }
}

/** The proposal entry points with their loops over the stored lists. */
module MultisigContract {
  import opened Basics
  import opened Multisig
  import opened MultisigRuns
  import RegistryState

  class Contract {
    var now: nat
    var config: Config
    var proposalCounter: nat
    var proposals: map<nat, Proposal>
    var balances: RegistryState.Balances

    function State(): Council
      reads this
    {
      Council(now, config, proposalCounter, proposals, balances)
    }

    /** Numbers are in the past and nobody's approval is stored twice. */
    predicate Valid()
      reads this
    {
      Sound(State())
    }

    constructor (now: nat, config: Config, balances: RegistryState.Balances)
      ensures Valid() && Fresh(State()) && this.now == now && this.config == config && this.balances == balances
    {
      this.now, this.config, this.balances := now, config, balances;
      proposalCounter, proposals := 0, map[];
    }

    method Propose(proposer: Address, operation: Operation, timelock: nat) returns (r: Result<nat, Error>)
      requires Valid()
      modifies this`proposalCounter, this`proposals
      ensures Valid()
      ensures Follows(Multisig.Propose(old(State()), proposer, operation, timelock), old(State()), State(), r)
      ensures r.Ok? ==> r.value == proposalCounter
    {
      hide Sound;
      StepKeepsSound(State(), OpPropose(proposer, operation, timelock));
      if proposalCounter + 1 > U64_MAX || now + timelock > U64_MAX { return Err(Overflow); }
      proposalCounter := proposalCounter + 1;
      proposals := proposals[proposalCounter := Proposal(proposer, operation, [], now, now + timelock, Active)];
      r := Ok(proposalCounter);
    }

    method Approve(signer: Address, id: nat) returns (r: Result<(), Error>)
      requires Valid()
      modifies this`proposals
      ensures Valid()
      ensures Follows(Multisig.Approve(old(State()), signer, id), old(State()), State(), r)
    {
      hide Sound;
      StepKeepsSound(State(), OpApprove(signer, id));
      if id !in proposals { return Err(NotFound); }
      var proposal := proposals[id];
      if proposal.status != Active { return Err(InvalidInput); }
      for i := 0 to |proposal.approvals|
        invariant signer !in proposal.approvals[..i]
        invariant proposals == old(proposals)
      {
        if proposal.approvals[i] == signer { return Ok(()); }
      }
      assert proposal.approvals[..|proposal.approvals|] == proposal.approvals;
      proposal := proposal.(approvals := proposal.approvals + [signer]);
      proposals := proposals[id := proposal];
      r := Ok(());
    }

    method Veto(id: nat) returns (r: Result<(), Error>)
      requires Valid()
      modifies this`proposals
      ensures Valid()
      ensures Follows(Multisig.Veto(old(State()), id), old(State()), State(), r)
    {
      hide Sound;
      StepKeepsSound(State(), OpVeto(config.admin, id));
      if id !in proposals { return Err(NotFound); }
      var proposal := proposals[id];
      if proposal.status != Active { return Err(InvalidInput); }
      proposal := proposal.(status := Vetoed);
      proposals := proposals[id := proposal];
      r := Ok(());
    }

    /** The search for an address that is about to be added. */
    method IsAdmin(a: Address) returns (found: bool)
      ensures found <==> a in config.adminSet
    {
      found := false;
      for i := 0 to |config.adminSet|
        invariant !found && a !in config.adminSet[..i]
      {
        if config.adminSet[i] == a { return true; }
      }
      assert config.adminSet[..|config.adminSet|] == config.adminSet;
    }

    /** The list rebuilt without an address. */
    method AdminsWithout(a: Address) returns (kept: seq<Address>)
      ensures kept == Without(config.adminSet, a)
    {
      kept := [];
      for i := 0 to |config.adminSet|
        invariant kept == Without(config.adminSet[..i], a)
      {
        assert config.adminSet[..i + 1][..i] == config.adminSet[..i];
        if config.adminSet[i] != a {
          kept := kept + [config.adminSet[i]];
        }
      }
      assert config.adminSet[..|config.adminSet|] == config.adminSet;
    }

    method Perform(operation: Operation) returns (r: Result<(), Error>)
      modifies this`config, this`balances
      ensures Follows(Multisig.Perform(old(State()), operation), old(State()), State(), r)
    {
      match operation {
        case SetFee(fee) =>
          if fee > MAX_FEE_BPS { return Err(FeeTooHigh); }
          config := config.(feeBps := fee);
        case SetMinStake(min) =>
          if min < 0 { return Err(InvalidInput); }
          config := config.(minStake := min);
        case SetAdminThreshold(t) => config := config.(threshold := t);
        case Pause => config := config.(paused := true);
        case Unpause => config := config.(paused := false);
        case Upgrade =>
        case WithdrawFees(token, amount) =>
          if amount <= 0 { return Err(InvalidInput); }
          match RegistryState.Transfer(balances, token, RegistryState.CONTRACT, config.admin, amount) {
            case Err(e) => return Err(TokenTrap(e));
            case Ok(paid) => balances := paid;
          }
        case AddAdmin(a) =>
          var found := IsAdmin(a);
          if !found { config := config.(adminSet := config.adminSet + [a]); }
        case RemoveAdmin(a) =>
          var kept := AdminsWithout(a);
          config := config.(adminSet := kept);
      }
      r := Ok(());
    }

    method Execute(signers: set<Address>, id: nat) returns (r: Result<(), Error>)
      requires Valid()
      modifies this`config, this`balances, this`proposals
      ensures Valid()
      ensures Follows(Multisig.Execute(old(State()), signers, id), old(State()), State(), r)
    {
      hide Sound;
      StepKeepsSound(State(), OpExecute(signers, id));
      hide Multisig.Perform;
      if id !in proposals { return Err(NotFound); }
      var proposal := proposals[id];
      if proposal.status != Active { return Err(InvalidInput); }
      if now < proposal.timelockUntil { return Err(NotReady); }
      if config.adminSet != [] {
        if |proposal.approvals| < config.threshold { return Err(Unauthorized); }
      } else {
        if config.admin !in signers { return Err(Unauthorized); }
      }
      var performed := Perform(proposal.operation);
      if performed.Err? { return Err(performed.error); }
      proposal := proposal.(status := Executed);
      proposals := proposals[id := proposal];
      r := Ok(());
    }

    method Cancel(id: nat) returns (r: Result<(), Error>)
      requires Valid()
      modifies this`proposals
      ensures Valid()
      ensures Follows(Multisig.Cancel(old(State()), id), old(State()), State(), r)
    {
      hide Sound;
      StepKeepsSound(State(), OpCancel(id));
      if id !in proposals { return Err(NotFound); }
      var proposal := proposals[id];
      if proposal.status != Active { return Err(InvalidInput); }
      if now < proposal.timelockUntil { return Err(NotReady); }
      if config.adminSet != [] && |proposal.approvals| >= config.threshold { return Err(InvalidInput); }
      proposals := proposals - {id};
      r := Ok(());
    }

    method SetAdminSet(signer: Address, admins: seq<Address>, threshold: nat) returns (r: Result<(), Error>)
      requires Valid()
      modifies this`config
      ensures Valid()
      ensures Follows(Multisig.SetAdminSet(old(State()), signer, admins, threshold), old(State()), State(), r)
    {
      hide Sound;
      StepKeepsSound(State(), OpSetAdminSet(signer, admins, threshold));
      if signer != config.admin { return Err(Unauthorized); }
      if threshold == 0 || threshold > |admins| { return Err(InvalidThreshold); }
      config := config.(adminSet := admins);
      config := config.(threshold := threshold);
      r := Ok(());
    }
  }
}
