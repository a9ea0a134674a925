/** What executed proposals do to the settings, and where every setting comes from. */
module MultisigSettings {
  import opened Basics
  import opened Multisig
  import opened MultisigRuns
  import RegistryState
  import RegistryMovements

  datatype Setting = Fee(bps: nat) | MinStake(amount: int) | Threshold(count: nat) | Paused(flag: bool)
    | MainAdmin(admin: Address)

  predicate Has(s: Council, setting: Setting) {
    match setting
    case Fee(bps) => s.config.feeBps == bps
    case MinStake(amount) => s.config.minStake == amount
    case Threshold(count) => s.config.threshold == count
    case Paused(flag) => s.config.paused == flag
    case MainAdmin(admin) => s.config.admin == admin
  }

  /** The setting that an operation is about. */
  function Meant(operation: Operation): Option<Setting> {
    match operation
    case SetFee(bps) => Some(Fee(bps))
    case SetMinStake(amount) => Some(MinStake(amount))
    case SetAdminThreshold(count) => Some(Threshold(count))
    case Pause => Some(Paused(true))
    case Unpause => Some(Paused(false))
    case _ => None
  }

  /** The fee is at most the whole, the minimum stake is not negative. */
  predicate Sensible(setting: Setting) {
    match setting
    case Fee(bps) => bps <= 10_000
    case MinStake(amount) => amount >= 0
    case _ => true
  }

  lemma PerformTakesEffect(s: Council, operation: Operation, setting: Setting)
    requires Perform(s, operation).Ok?
    ensures Meant(operation) == Some(setting) ==> Has(Perform(s, operation).value, setting) && Sensible(setting)
    ensures Has(Perform(s, operation).value, setting) ==> Has(s, setting) || Meant(operation) == Some(setting)
  {
    hide Without, RegistryState.Transfer;
  }

  /** An executed proposal has the setting it is about, which is a sensible one. */
  lemma ExecutedTakesEffect(s: Council, signers: set<Address>, id: nat, setting: Setting)
    requires Execute(s, signers, id).Ok? && Meant(s.proposals[id].operation) == Some(setting)
    ensures Has(Execute(s, signers, id).value, setting) && Sensible(setting)
  {
    hide Perform;
    PerformTakesEffect(s, s.proposals[id].operation, setting);
  }

  /** A transaction that brings a setting about: an executed proposal about it, the main admin
      handing over, or the main admin setting a new group with its threshold. */
  predicate Brings(s: Council, op: Op, setting: Setting) {
    && Dispatch(s, op).Ok?
    && ((op.OpExecute? && op.id in s.proposals && Meant(s.proposals[op.id].operation) == Some(setting)
         && Sensible(setting))
        || (setting.MainAdmin? && op == OpSetAdmin(s.config.admin, setting.admin))
        || (setting.Threshold? && op.OpSetAdminSet? && op.signer == s.config.admin && op.newThreshold == setting.count
            && 1 <= setting.count <= |op.admins|))
  }

  lemma StepBrings(s: Council, op: Op, setting: Setting)
    requires !Has(s, setting) && Has(Next(s, op), setting)
    ensures Brings(s, op, setting)
  {
    hide Perform;
    if op.OpExecute? {
      PerformTakesEffect(s, s.proposals[op.id].operation, setting);
    }
  }

  /** In every run: a setting that was not there at the start was brought about in the run, in
      a state and by somebody that allowed it. */
  lemma {:induction false} SettingsHaveOrigins(s: Council, ops: seq<Op>, setting: Setting) returns (i: nat)
    requires !Has(s, setting) && Has(Run(s, ops), setting)
    ensures i < |ops| && Brings(Run(s, ops[..i]), ops[i], setting)
  {
    hide Next, Has, Brings;
    var n := |ops| - 1;
    if Has(Run(s, ops[..n]), setting) {
      i := SettingsHaveOrigins(s, ops[..n], setting);
      assert ops[..n][..i] == ops[..i] && ops[..n][i] == ops[i];
    } else {
      i := n;
      StepBrings(Run(s, ops[..n]), ops[n], setting);
    }
  }

  /** In every run a fee is at most the whole and a minimum stake not negative, unless the
      settings started with it. */
  lemma SettingsStaySensible(s: Council, ops: seq<Op>, setting: Setting)
    requires Has(Run(s, ops), setting)
    ensures Has(s, setting) || Sensible(setting)
  {
    hide Run, Has, Sensible, Brings;
    if !Has(s, setting) {
      var i := SettingsHaveOrigins(s, ops, setting);
      BroughtIsSensible(Run(s, ops[..i]), ops[i], setting);
    }
  }

  lemma BroughtIsSensible(s: Council, op: Op, setting: Setting)
    requires Brings(s, op, setting)
    ensures Sensible(setting)
  {
    hide Dispatch;
  }

  /** An executed fee withdrawal moves its amount from the contract to the main admin and
      changes no setting. */
  lemma FeesGoToAdmin(s: Council, signers: set<Address>, id: nat, token: Address, amount: int)
    requires Execute(s, signers, id).Ok? && s.proposals[id].operation == WithdrawFees(token, amount)
    ensures var t := Execute(s, signers, id).value;
      && t.config == s.config && amount > 0
      && RegistryMovements.Moved(s.balances, t.balances,
                                 RegistryMovements.Movement(token, RegistryState.CONTRACT, s.config.admin, amount))
  {
    hide RegistryState.Transfer, RegistryMovements.Moved;
    RegistryMovements.TransferIsMovement(s.balances, token, RegistryState.CONTRACT, s.config.admin, amount);
  }

  /** An active proposal can be cancelled exactly when its timelock is over and, under an
      admin set, fewer addresses than the threshold have signed for it in the run; anything
      else of the council stays. */
  lemma CancelIffUnsupported(s: Council, ops: seq<Op>, id: nat)
    requires Fresh(s) && id in Run(s, ops).proposals && Run(s, ops).proposals[id].status == Active
    ensures var t := Run(s, ops);
      && (Cancel(t, id).Ok? <==>
            && t.now >= t.proposals[id].timelockUntil
            && (t.config.adminSet != [] ==> |SignedBy(s, ops, id)| < t.config.threshold))
      && (Cancel(t, id).Ok? ==> Cancel(t, id).value == t.(proposals := t.proposals - {id}))
  {
    hide Run, SignedBy;
    RunKeepsRecorded(s, ops, id);
    DistinctCount(Run(s, ops).proposals[id].approvals);
  }

  // ---- Status and group ----

  /** The proposal is stored with this status. */
  predicate Stands(s: Council, id: nat, status: Status) {
    id in s.proposals && s.proposals[id].status == status
  }

  /** A transaction on this proposal that gives it the status. */
  predicate Gives(op: Op, id: nat, status: Status) {
    match status
    case Executed => op.OpExecute? && op.id == id
    case Vetoed => op.OpVeto? && op.id == id
    case Active => false
  }

  lemma StepGives(s: Council, op: Op, id: nat, status: Status)
    requires IdsInPast(s) && status != Active
    ensures Stands(Next(s, op), id, status) <==> Stands(s, id, status) || (Gives(op, id, status) && Dispatch(s, op).Ok?)
  {
    hide Perform;
    if op.OpExecute? && Dispatch(s, op).Ok? {
      PerformKeepsProposals(s, s.proposals[op.id].operation);
    }
  }

  /** In every run a proposal is marked executed, or vetoed, exactly if a transaction of the
      run successfully executed, or vetoed, it. */
  lemma {:induction false} StatusTellsTheRun(s: Council, ops: seq<Op>, id: nat, status: Status)
    requires Fresh(s) && status != Active
    ensures Stands(Run(s, ops), id, status)
            <==> exists i :: 0 <= i < |ops| && Gives(ops[i], id, status) && Succeeds(s, ops, i)
  {
    hide Next, Dispatch, Gives;
    if ops != [] {
      var n := |ops| - 1;
      var prior := ops[..n];
      StatusTellsTheRun(s, prior, id, status);
      RunKeepsIds(s, prior);
      StepGives(Run(s, prior), ops[n], id, status);
      forall i | 0 <= i < n ensures ops[i] == prior[i] && (Succeeds(s, ops, i) <==> Succeeds(s, prior, i)) {
        assert prior[..i] == ops[..i];
      }
      assert Succeeds(s, ops, n) <==> Dispatch(Run(s, prior), ops[n]).Ok?;
    }
  }

  /** The main admin, and nobody else, replaces group and threshold, or hands over; nothing
      else of the council changes. */
  lemma AdminDecidesIff(s: Council, signer: Address, admins: seq<Address>, threshold: nat, newAdmin: Address)
    ensures var t := Next(s, OpSetAdminSet(signer, admins, threshold));
      t == if signer == s.config.admin && 1 <= threshold <= |admins|
           then s.(config := Config(s.config.admin, admins, threshold, s.config.feeBps, s.config.minStake,
                                    s.config.paused))
           else s
    ensures Next(s, OpSetAdmin(signer, newAdmin))
            == if signer == s.config.admin
               then s.(config := Config(newAdmin, s.config.adminSet, s.config.threshold, s.config.feeBps,
                                        s.config.minStake, s.config.paused))
               else s
  {
    hide Perform;
  }

  /** Who may not is refused: approving and vetoing need an active proposal, executing an
      active one past its timelock with the threshold of approvals, or without a group the
      main admin among the signers. */
  lemma AcceptedOnlyActive(s: Council, op: Op)
    requires op.OpApprove? || op.OpVeto? || op.OpExecute?
    ensures var active := op.id in s.proposals && s.proposals[op.id].status == Active;
      && (op.OpApprove? || op.OpVeto? ==> (Dispatch(s, op).Ok? <==> active))
      && (op.OpExecute? ==>
            (Dispatch(s, op).Ok?
             <==> && active && s.now >= s.proposals[op.id].timelockUntil
                  && (if s.config.adminSet == [] then s.config.admin in op.signers
                      else |s.proposals[op.id].approvals| >= s.config.threshold)
                  && Perform(s, s.proposals[op.id].operation).Ok?))
  {
    hide Perform;
  }
}
