/** Reconciliation of the call, stake and payout tables with on-chain events: what each
    event finds and, in repair mode, changes. */
module Reconciliation {
  import opened Basics

  datatype Kind = CallCreated | StakeAdded | CallResolved | PayoutClaimed | Other

  function KindOf(name: string): Kind {
    if name in {"MarketCreated", "call_created"} then CallCreated
    else if name in {"BetPlaced", "stake_added"} then StakeAdded
    else if name in {"OutcomeFinalized", "call_resolved", "call_settled"} then CallResolved
    else if name == "PayoutClaimed" then PayoutClaimed
    else Other
  }

  /** The payload fields the handlers look at; absent ones are None. */
  datatype Data = Data(callId: Option<string>, marketId: Option<string>, title: Option<string>,
                       creatorAddress: Option<string>, creator: Option<string>, userAddress: Option<string>,
                       staker: Option<string>, stakerAddress: Option<string>, amount: Option<string>,
                       outcome: Option<string>, outcomeResult: Option<string>)

  datatype Event = Event(contractId: string, txHash: string, name: string, data: Data)

  function Or(first: Option<string>, second: Option<string>, default: string): string {
    if first.Some? then first.value else if second.Some? then second.value else default
  }

  datatype CallStatus = Draft | Open | Paused | Settling | ResolvedYes | ResolvedNo
  datatype CallRow = CallRow(title: string, creatorAddress: string, status: CallStatus, resolvedAt: Option<nat>)
  datatype PayoutStatus = Pending | Claimed | Failed
  datatype PayoutRow = PayoutRow(amount: string, txHash: Option<string>, claimedAt: Option<nat>, status: PayoutStatus)

  /** The tables by the columns the handlers search; a call id or a pair of call and user
      may have several rows, a payout at most one. */
  datatype Tables = Tables(calls: map<string, seq<CallRow>>, stakes: map<(string, string), seq<string>>,
                           payouts: map<(string, string), PayoutRow>)

  datatype Type = MissingOffchain | DuplicateOffchain | ValueMismatch | UnknownContract | Unrecoverable
  datatype Status = Detected | Repaired | Quarantined
  datatype Finding = Finding(kind: Type, status: Status)

  /** The tables after an event and what it found, if anything. */
  datatype Step = Step(tables: Tables, finding: Option<Finding>)

  function Rows<K, V>(table: map<K, seq<V>>, key: K): seq<V> {
    if key in table then table[key] else []
  }

  function Refused(dryRun: bool): Status {
    if dryRun then Detected else Quarantined
  }

  /** The call a creation event is about; without an id, the transaction hash. */
  function CreatedId(e: Event): string {
    Or(e.data.callId, e.data.marketId, e.txHash)
  }

  function CallId(e: Event): string {
    Or(e.data.callId, e.data.marketId, "")
  }

  function Upper(text: string): string {
    if text == [] then []
    else Upper(text[..|text| - 1])
         + [if 'a' <= text[|text| - 1] <= 'z' then text[|text| - 1] - 'a' + 'A' else text[|text| - 1]]
  }

  function ExpectedStatus(e: Event): CallStatus {
    if Upper(Or(e.data.outcome, e.data.outcomeResult, "")) in {"YES", "1", "TRUE"} then ResolvedYes else ResolvedNo
  }

  function Creator(e: Event): string {
    Or(e.data.creatorAddress, e.data.creator, "SYSTEM")
  }

  function NewCall(e: Event): CallRow {
    var id := CreatedId(e);
    CallRow(Or(e.data.title, None, "Call " + if |id| <= 8 then id else id[..8]), Creator(e), Open, None)
  }

  function OnCallCreated(t: Tables, e: Event, dryRun: bool): Step {
    var id := CreatedId(e);
    var existing := Rows(t.calls, id);
    if existing == [] then
      if dryRun then Step(t, Some(Finding(MissingOffchain, Detected)))
      else Step(t.(calls := t.calls[id := [NewCall(e)]]), Some(Finding(MissingOffchain, Repaired)))
    else if |existing| > 1 then Step(t, Some(Finding(DuplicateOffchain, Refused(dryRun))))
    else if Creator(e) != "SYSTEM" && existing[0].creatorAddress != Creator(e)
    then Step(t, Some(Finding(ValueMismatch, Refused(dryRun))))
    else Step(t, None)
  }

  function User(e: Event): string {
    Or(e.data.userAddress, e.data.staker, "")
  }

  function OnStakeAdded(t: Tables, e: Event, dryRun: bool): Step {
    var key := (CallId(e), User(e));
    if key.0 == "" || key.1 == "" then Step(t, Some(Finding(Unrecoverable, Quarantined)))
    else if Rows(t.stakes, key) != [] then Step(t, None)
    else if dryRun then Step(t, Some(Finding(MissingOffchain, Detected)))
    else Step(t.(stakes := t.stakes[key := [Or(e.data.amount, None, "0")]]), Some(Finding(MissingOffchain, Repaired)))
  }

  /** Every row of a call with the status of its resolution. */
  function Resolved(rows: seq<CallRow>, status: CallStatus, now: nat): seq<CallRow> {
    seq(|rows|, i requires 0 <= i < |rows| => rows[i].(status := status, resolvedAt := Some(now)))
  }

  function OnCallResolved(t: Tables, e: Event, dryRun: bool, now: nat): Step {
    var id := CallId(e);
    var rows := Rows(t.calls, id);
    if id == "" then Step(t, None)
    else if rows == [] then Step(t, Some(Finding(MissingOffchain, Refused(dryRun))))
    else if rows[0].status == ExpectedStatus(e) then Step(t, None)
    else if dryRun then Step(t, Some(Finding(ValueMismatch, Detected)))
    else Step(t.(calls := t.calls[id := Resolved(rows, ExpectedStatus(e), now)]),
              Some(Finding(ValueMismatch, Repaired)))
  }

  function PayoutKey(e: Event): (string, string) {
    (Or(e.data.callId, None, ""), Or(e.data.stakerAddress, e.data.staker, ""))
  }

  function OnPayoutClaimed(t: Tables, e: Event, dryRun: bool, now: nat): Step {
    var key := PayoutKey(e);
    if key.0 == "" || key.1 == "" then Step(t, None)
    else if key !in t.payouts then
      if dryRun then Step(t, Some(Finding(MissingOffchain, Detected)))
      else
        var row := PayoutRow(Or(e.data.amount, None, "0"), Some(e.txHash), Some(now), Claimed);
        Step(t.(payouts := t.payouts[key := row]), Some(Finding(MissingOffchain, Repaired)))
    else if t.payouts[key].status == Claimed then Step(t, None)
    else if dryRun then Step(t, Some(Finding(ValueMismatch, Detected)))
    else
      var row := t.payouts[key].(status := Claimed, txHash := Some(e.txHash), claimedAt := Some(now));
      Step(t.(payouts := t.payouts[key := row]), Some(Finding(ValueMismatch, Repaired)))
  }

  function ReconcileEvent(t: Tables, e: Event, dryRun: bool, now: nat): Step {
    match KindOf(e.name)
    case CallCreated => OnCallCreated(t, e, dryRun)
    case StakeAdded => OnStakeAdded(t, e, dryRun)
    case CallResolved => OnCallResolved(t, e, dryRun, now)
    case PayoutClaimed => OnPayoutClaimed(t, e, dryRun, now)
    case Other => Step(t, None)
  }

  predicate Accepted(contracts: seq<string>, e: Event) {
    contracts == [] || e.contractId in contracts
  }

  /** One iteration of the run: foreign contracts are quarantined unseen. */
  function Examine(t: Tables, contracts: seq<string>, e: Event, dryRun: bool, now: nat): Step {
    if Accepted(contracts, e) then ReconcileEvent(t, e, dryRun, now)
    else Step(t, Some(Finding(UnknownContract, Quarantined)))
  }

  // ---- A run over a list of events ----

  /** The counters of a run; `stored` is what the discrepancy table receives. */
  datatype Report = Report(discrepancies: nat, repaired: nat, quarantined: nat, breakdown: map<Type, nat>,
                           stored: seq<Finding>)

  const EMPTY_BREAKDOWN: map<Type, nat> := map[MissingOffchain := 0, DuplicateOffchain := 0, ValueMismatch := 0,
                                               UnknownContract := 0, Unrecoverable := 0]

  function Count(breakdown: map<Type, nat>, kind: Type): nat {
    if kind in breakdown then breakdown[kind] else 0
  }

  function Tally(r: Report, finding: Option<Finding>, dryRun: bool): Report {
    match finding
    case None => r
    case Some(f) =>
      Report(r.discrepancies + 1,
             r.repaired + if f.status == Repaired then 1 else 0,
             r.quarantined + if f.status == Quarantined then 1 else 0,
             r.breakdown[f.kind := Count(r.breakdown, f.kind) + 1],
             r.stored + [Finding(f.kind, if dryRun then Detected else f.status)])
  }

  datatype Run = Run(tables: Tables, report: Report)

  function Pass(t: Tables, contracts: seq<string>, events: seq<Event>, dryRun: bool, now: nat): Run {
    if events == [] then Run(t, Report(0, 0, 0, EMPTY_BREAKDOWN, []))
    else
      var before := Pass(t, contracts, events[..|events| - 1], dryRun, now);
      var step := Examine(before.tables, contracts, events[|events| - 1], dryRun, now);
      Run(step.tables, Tally(before.report, step.finding, dryRun))
  }
}

/** The accounting of a run, and the convergence of repeated repairs. */
module ReconciliationRuns {
  import opened Basics
  import opened Reconciliation

  function Total(b: map<Type, nat>): nat {
    Count(b, MissingOffchain) + Count(b, DuplicateOffchain) + Count(b, ValueMismatch) + Count(b, UnknownContract)
    + Count(b, Unrecoverable)
  }

  /** In repair mode every discrepancy is either repaired or quarantined; in dry-run mode
      none is repaired, only foreign and unreadable events count as quarantined, and the
      three tables stay as they are. */
  predicate Accounts(t: Tables, run: Run, dryRun: bool) {
    var r := run.report;
    && r.discrepancies == Total(r.breakdown) == |r.stored|
    && (!dryRun ==> r.repaired + r.quarantined == r.discrepancies)
    && (dryRun ==> r.repaired == 0 && run.tables == t
                   && r.quarantined == Count(r.breakdown, UnknownContract) + Count(r.breakdown, Unrecoverable)
                   && forall f :: f in r.stored ==> f.status == Detected)
  }

  lemma FindingsAreClassified(t: Tables, contracts: seq<string>, e: Event, dryRun: bool, now: nat)
    ensures var step := Examine(t, contracts, e, dryRun, now);
      && (step.finding.Some? && !dryRun ==> step.finding.value.status != Detected)
      && (dryRun ==> step.tables == t)
      && (step.finding.Some? && dryRun ==>
            && step.finding.value.status != Repaired
            && (step.finding.value.status == Quarantined
                <==> step.finding.value.kind == UnknownContract || step.finding.value.kind == Unrecoverable))
  {
    hide KindOf, ExpectedStatus, CreatedId, CallId, NewCall, Creator, User, PayoutKey, Accepted, Resolved;
  }

  lemma TallyKeepsAccounts(t: Tables, before: Run, step: Step, dryRun: bool)
    requires Accounts(t, before, dryRun)
    requires dryRun ==> step.tables == before.tables
    requires step.finding.Some? && !dryRun ==> step.finding.value.status != Detected
    requires step.finding.Some? && dryRun ==>
               && step.finding.value.status != Repaired
               && (step.finding.value.status == Quarantined
                   <==> step.finding.value.kind == UnknownContract || step.finding.value.kind == Unrecoverable)
    ensures Accounts(t, Run(step.tables, Tally(before.report, step.finding, dryRun)), dryRun)
  {
    if step.finding.Some? {
      CountOneMore(before.report.breakdown, step.finding.value.kind);
    }
  }

  lemma CountOneMore(b: map<Type, nat>, kind: Type)
    ensures var after := b[kind := Count(b, kind) + 1];
      && Total(after) == Total(b) + 1
      && forall k :: Count(after, k) == Count(b, k) + if k == kind then 1 else 0
  {
    match kind
    case MissingOffchain =>
    case DuplicateOffchain =>
    case ValueMismatch =>
    case UnknownContract =>
    case Unrecoverable =>
  }

  /** The books of a run balance, for every list of events. */
  lemma {:induction false} RunAccounts(t: Tables, contracts: seq<string>, events: seq<Event>, dryRun: bool, now: nat)
    ensures Accounts(t, Pass(t, contracts, events, dryRun, now), dryRun)
  {
    hide Examine, Tally, Accounts;
    if events == [] {
      EmptyAccounts(t, dryRun);
    } else {
      var before := Pass(t, contracts, events[..|events| - 1], dryRun, now);
      RunAccounts(t, contracts, events[..|events| - 1], dryRun, now);
      FindingsAreClassified(before.tables, contracts, events[|events| - 1], dryRun, now);
      TallyKeepsAccounts(t, before, Examine(before.tables, contracts, events[|events| - 1], dryRun, now), dryRun);
    }
  }

  lemma EmptyAccounts(t: Tables, dryRun: bool)
    ensures Accounts(t, Run(t, Report(0, 0, 0, EMPTY_BREAKDOWN, [])), dryRun)
  {
  }

  // ---- Which events have nothing left to repair ----

  predicate Exists(t: Tables, id: string) {
    Rows(t.calls, id) != []
  }

  /** Repair mode does not touch anything for this event. */
  predicate Quiet(t: Tables, contracts: seq<string>, e: Event) {
    Accepted(contracts, e) ==>
      match KindOf(e.name)
      case CallCreated => Exists(t, CreatedId(e))
      case StakeAdded => CallId(e) == "" || User(e) == "" || Rows(t.stakes, (CallId(e), User(e))) != []
      case CallResolved =>
        CallId(e) == "" || !Exists(t, CallId(e)) || Rows(t.calls, CallId(e))[0].status == ExpectedStatus(e)
      case PayoutClaimed =>
        PayoutKey(e).0 == "" || PayoutKey(e).1 == ""
        || (PayoutKey(e) in t.payouts && t.payouts[PayoutKey(e)].status == Claimed)
      case Other => true
  }

  /** An event is repaired exactly when it is not quiet, and only then changes a table. */
  lemma RepairedIffNotQuiet(t: Tables, contracts: seq<string>, e: Event, now: nat)
    ensures var step := Examine(t, contracts, e, false, now);
      && ((step.finding.Some? && step.finding.value.status == Repaired) <==> !Quiet(t, contracts, e))
      && (Quiet(t, contracts, e) ==> step.tables == t)
  {
    hide KindOf, ExpectedStatus, CreatedId, CallId, NewCall, Creator, User, PayoutKey, Accepted, Resolved;
  }

  predicate IsCreation(contracts: seq<string>, e: Event) {
    Accepted(contracts, e) && KindOf(e.name).CallCreated?
  }

  predicate IsResolution(contracts: seq<string>, e: Event) {
    Accepted(contracts, e) && KindOf(e.name).CallResolved? && CallId(e) != ""
  }

  /** A repaired event is quiet afterwards. */
  lemma RepairSilences(t: Tables, contracts: seq<string>, e: Event, now: nat)
    ensures Quiet(Examine(t, contracts, e, false, now).tables, contracts, e)
  {
    hide KindOf, ExpectedStatus, CreatedId, CallId, NewCall, Creator, User, PayoutKey, Accepted;
  }

  /** A step takes no call away and adds one only for a creation event. */
  lemma StepKeepsCalls(t: Tables, contracts: seq<string>, e: Event, now: nat, id: string)
    ensures Exists(Examine(t, contracts, e, false, now).tables, id)
            <==> Exists(t, id) || (IsCreation(contracts, e) && CreatedId(e) == id)
  {
    hide KindOf, ExpectedStatus, CreatedId, CallId, NewCall, Creator, User, PayoutKey, Accepted;
  }

  /** What can make a quiet event noisy again: a resolution of the same call with another
      status, or the creation of a call that was missing when it was resolved. */
  predicate Disturbs(t: Tables, contracts: seq<string>, e: Event, quiet: Event) {
    && IsResolution(contracts, quiet)
    && ((IsResolution(contracts, e) && CallId(e) == CallId(quiet) && ExpectedStatus(e) != ExpectedStatus(quiet)
         && Exists(t, CallId(e)))
        || (IsCreation(contracts, e) && CreatedId(e) == CallId(quiet) && !Exists(t, CallId(quiet))))
  }

  lemma QuietStaysQuiet(t: Tables, contracts: seq<string>, e: Event, quiet: Event, now: nat)
    requires Quiet(t, contracts, quiet) && !Disturbs(t, contracts, e, quiet)
    ensures Quiet(Examine(t, contracts, e, false, now).tables, contracts, quiet)
  {
    hide KindOf, ExpectedStatus, CreatedId, CallId, NewCall, Creator, User, PayoutKey, Accepted;
  }

  // ---- Convergence ----

  /** The tables after one repair pass. */
  function After(t: Tables, contracts: seq<string>, events: seq<Event>, now: nat): Tables {
    Pass(t, contracts, events, false, now).tables
  }

  lemma AfterStep(t: Tables, contracts: seq<string>, events: seq<Event>, now: nat)
    requires events != []
    ensures After(t, contracts, events, now)
            == Examine(After(t, contracts, events[..|events| - 1], now), contracts, events[|events| - 1], false,
                       now).tables
  {
    hide Examine, Tally;
  }

  /** The call has a row before the run or a creation event in the list. */
  predicate Known(t: Tables, contracts: seq<string>, events: seq<Event>, id: string) {
    Exists(t, id) || exists i :: 0 <= i < |events| && IsCreation(contracts, events[i]) && CreatedId(events[i]) == id
  }

  lemma {:induction false} KnownCallsExist(t: Tables, contracts: seq<string>, events: seq<Event>, now: nat, id: string)
    ensures Exists(After(t, contracts, events, now), id) <==> Known(t, contracts, events, id)
  {
    hide After, Exists, IsCreation, CreatedId, Examine;
    if events == [] {
      NothingAfter(t, contracts, now);
    } else {
      var prior, e := events[..|events| - 1], events[|events| - 1];
      KnownCallsExist(t, contracts, prior, now, id);
      AfterStep(t, contracts, events, now);
      StepKeepsCalls(After(t, contracts, prior, now), contracts, e, now, id);
      assert forall i :: 0 <= i < |prior| ==> prior[i] == events[i];
    }
  }

  lemma NothingAfter(t: Tables, contracts: seq<string>, now: nat)
    ensures After(t, contracts, [], now) == t
  {
  }

  /** All resolution events of a call that is known imply the same status. */
  predicate Agreeing(t: Tables, contracts: seq<string>, events: seq<Event>) {
    forall i, j :: 0 <= i < |events| && 0 <= j < |events|
                   && IsResolution(contracts, events[i]) && IsResolution(contracts, events[j])
                   && CallId(events[i]) == CallId(events[j]) && Known(t, contracts, events, CallId(events[i]))
                   ==> ExpectedStatus(events[i]) == ExpectedStatus(events[j])
  }

  /** No call is created behind one of its resolution events, unless it exists by then. */
  predicate Orderly(t: Tables, contracts: seq<string>, events: seq<Event>) {
    forall i, k :: 0 <= i < k < |events| && IsResolution(contracts, events[i]) && IsCreation(contracts, events[k])
                   && CreatedId(events[k]) == CallId(events[i])
                   ==> Known(t, contracts, events[..i], CallId(events[i]))
  }

  predicate AllQuiet(t: Tables, contracts: seq<string>, events: seq<Event>) {
    forall e :: e in events ==> Quiet(t, contracts, e)
  }

  lemma {:induction false} KnownGrows(t: Tables, contracts: seq<string>, events: seq<Event>, i: nat, k: nat, id: string)
    requires i <= k <= |events| && Known(t, contracts, events[..i], id)
    ensures Known(t, contracts, events[..k], id)
  {
    hide Exists, IsCreation, CreatedId;
    if !Exists(t, id) {
      var m :| 0 <= m < i && IsCreation(contracts, events[..i][m]) && CreatedId(events[..i][m]) == id;
      assert events[..k][m] == events[..i][m];
    }
  }

  /** In an agreeing and orderly list, no event disturbs an earlier one. */
  lemma EarlierStayQuiet(t: Tables, contracts: seq<string>, events: seq<Event>, i: nat, k: nat, now: nat)
    requires Agreeing(t, contracts, events) && Orderly(t, contracts, events) && i < k < |events|
    ensures !Disturbs(After(t, contracts, events[..k], now), contracts, events[k], events[i])
  {
    hide After, Exists, IsCreation, IsResolution, CreatedId, CallId, ExpectedStatus;
    var id := CallId(events[i]);
    KnownCallsExist(t, contracts, events[..k], now, id);
    if IsResolution(contracts, events[i]) {
      if IsCreation(contracts, events[k]) && CreatedId(events[k]) == id {
        KnownGrows(t, contracts, events, i, k, id);
      }
      if Known(t, contracts, events[..k], id) {
        assert events[..|events|] == events;
        KnownGrows(t, contracts, events, k, |events|, id);
      }
    }
  }

  /** After a pass over such a list, every event is quiet. */
  lemma {:induction false} PassSilences(t: Tables, contracts: seq<string>, events: seq<Event>, k: nat, now: nat)
    requires Agreeing(t, contracts, events) && Orderly(t, contracts, events) && k <= |events|
    ensures AllQuiet(After(t, contracts, events[..k], now), contracts, events[..k])
  {
    hide After, Quiet, Agreeing, Orderly, Disturbs, Examine;
    if k > 0 {
      var prior, e := events[..k - 1], events[k - 1];
      PassSilences(t, contracts, events, k - 1, now);
      assert events[..k][..k - 1] == prior;
      AfterStep(t, contracts, events[..k], now);
      RepairSilences(After(t, contracts, prior, now), contracts, e, now);
      forall x | x in events[..k] ensures Quiet(After(t, contracts, events[..k], now), contracts, x) {
        var i :| 0 <= i < k && events[i] == x;
        if i < k - 1 {
          assert x in prior;
          EarlierStayQuiet(t, contracts, events, i, k - 1, now);
          QuietStaysQuiet(After(t, contracts, prior, now), contracts, e, x, now);
        }
      }
    }
  }

  /** A pass repairs nothing exactly when every event is quiet from the start; then it
      changes nothing either. */
  lemma {:induction false} QuietPass(t: Tables, contracts: seq<string>, events: seq<Event>, now: nat)
    ensures Pass(t, contracts, events, false, now).report.repaired == 0 <==> AllQuiet(t, contracts, events)
    ensures AllQuiet(t, contracts, events) ==> After(t, contracts, events, now) == t
  {
    hide Quiet, Examine;
    if events != [] {
      var prior, e := events[..|events| - 1], events[|events| - 1];
      QuietPass(t, contracts, prior, now);
      RepairedIffNotQuiet(After(t, contracts, prior, now), contracts, e, now);
      assert events == prior + [e];
      assert AllQuiet(t, contracts, events) <==> AllQuiet(t, contracts, prior) && Quiet(t, contracts, e);
    }
  }

  /** One repair pass is enough when no call is created behind its resolution and the
      resolutions of each known call agree. */
  lemma OnePassSuffices(t: Tables, contracts: seq<string>, events: seq<Event>, now: nat, later: nat)
    requires Agreeing(t, contracts, events) && Orderly(t, contracts, events)
    ensures var t1 := After(t, contracts, events, now);
      Pass(t1, contracts, events, false, later).report.repaired == 0 && After(t1, contracts, events, later) == t1
  {
    hide Pass, Agreeing, Orderly, AllQuiet;
    PassSilences(t, contracts, events, |events|, now);
    assert events[..|events|] == events;
    QuietPass(After(t, contracts, events, now), contracts, events, later);
  }

  /** The first pass creates every call there is a creation event for. */
  lemma SecondPassIsOrderly(t: Tables, contracts: seq<string>, events: seq<Event>, now: nat)
    ensures Orderly(After(t, contracts, events, now), contracts, events)
    ensures Agreeing(After(t, contracts, events, now), contracts, events) <==> Agreeing(t, contracts, events)
  {
    hide After, Exists, IsCreation, IsResolution, CreatedId, CallId, ExpectedStatus;
    var t1 := After(t, contracts, events, now);
    forall id: string ensures Known(t1, contracts, events, id) <==> Known(t, contracts, events, id)
                      ensures Known(t1, contracts, events, id) ==> Exists(t1, id) {
      KnownCallsExist(t, contracts, events, now, id);
    }
  }

  /** For any tables and any list of events, the third repair pass repairs nothing and
      changes nothing exactly when the resolutions of each known call agree. */
  lemma ThirdPassIsQuietIff(t: Tables, contracts: seq<string>, events: seq<Event>, first: nat, second: nat, third: nat)
    ensures var t2 := After(After(t, contracts, events, first), contracts, events, second);
      && (Pass(t2, contracts, events, false, third).report.repaired == 0 <==> Agreeing(t, contracts, events))
      && (Agreeing(t, contracts, events) ==> After(t2, contracts, events, third) == t2)
  {
    hide Pass, Agreeing, Orderly, AllQuiet;
    var t1 := After(t, contracts, events, first);
    var t2 := After(t1, contracts, events, second);
    SecondPassIsOrderly(t, contracts, events, first);
    SecondPassIsOrderly(t1, contracts, events, second);
    QuietPass(t2, contracts, events, third);
    if Agreeing(t, contracts, events) {
      OnePassSuffices(t1, contracts, events, second, third);
    } else if AllQuiet(t2, contracts, events) {
      QuietMeansAgreeing(t2, contracts, events);
    }
  }

  /** If nothing is left to repair, no two resolutions of an existing call disagree. */
  lemma QuietMeansAgreeing(t: Tables, contracts: seq<string>, events: seq<Event>)
    requires AllQuiet(t, contracts, events)
    ensures Agreeing(t, contracts, events)
  {
    hide CreatedId, CallId, ExpectedStatus, KindOf, Accepted, User, PayoutKey, Rows;
    forall k | 0 <= k < |events| && IsCreation(contracts, events[k]) ensures Exists(t, CreatedId(events[k])) {
      assert Quiet(t, contracts, events[k]);
    }
    forall i, j | 0 <= i < |events| && 0 <= j < |events|
                  && IsResolution(contracts, events[i]) && IsResolution(contracts, events[j])
                  && CallId(events[i]) == CallId(events[j]) && Known(t, contracts, events, CallId(events[i]))
      ensures ExpectedStatus(events[i]) == ExpectedStatus(events[j])
    {
      assert Quiet(t, contracts, events[i]) && Quiet(t, contracts, events[j]);
    }
  }
}

/** The service as it runs: a loop over the events with its counters, and handlers that
    write one table each. */
module ReconciliationService {
  import opened Basics
  import opened Reconciliation
  import opened ReconciliationRuns

  class Service {
    var calls: map<string, seq<CallRow>>
    var stakes: map<(string, string), seq<string>>
    var payouts: map<(string, string), PayoutRow>
    /** The discrepancy table. */
    var stored: seq<Finding>

    function State(): Tables
      reads this
    {
      Tables(calls, stakes, payouts)
    }

    constructor (calls: map<string, seq<CallRow>>, stakes: map<(string, string), seq<string>>,
                 payouts: map<(string, string), PayoutRow>)
      ensures State() == Tables(calls, stakes, payouts) && stored == []
    {
      this.calls, this.stakes, this.payouts, this.stored := calls, stakes, payouts, [];
    }

    method ReconcileCallCreated(e: Event, dryRun: bool) returns (finding: Option<Finding>)
      modifies this`calls
      ensures Step(State(), finding) == OnCallCreated(old(State()), e, dryRun)
    {
      var id := CreatedId(e);
      var existing := Rows(calls, id);
      if |existing| == 0 {
        if dryRun { return Some(Finding(MissingOffchain, Detected)); }
        calls := calls[id := [NewCall(e)]];
        return Some(Finding(MissingOffchain, Repaired));
      }
      if |existing| > 1 { return Some(Finding(DuplicateOffchain, if dryRun then Detected else Quarantined)); }
      var call := existing[0];
      var creator := Creator(e);
      if creator != "SYSTEM" && call.creatorAddress != creator {
        return Some(Finding(ValueMismatch, if dryRun then Detected else Quarantined));
      }
      finding := None;
    }

    method ReconcileStakeAdded(e: Event, dryRun: bool) returns (finding: Option<Finding>)
      modifies this`stakes
      ensures Step(State(), finding) == OnStakeAdded(old(State()), e, dryRun)
    {
      var id, user := CallId(e), User(e);
      if id == "" || user == "" { return Some(Finding(Unrecoverable, Quarantined)); }
      var existing := Rows(stakes, (id, user));
      if |existing| == 0 {
        if dryRun { return Some(Finding(MissingOffchain, Detected)); }
        stakes := stakes[(id, user) := [Or(e.data.amount, None, "0")]];
        return Some(Finding(MissingOffchain, Repaired));
      }
      finding := None;
    }

    /** Saving the call writes every row that has its id. */
    method ReconcileCallResolved(e: Event, dryRun: bool, now: nat) returns (finding: Option<Finding>)
      modifies this`calls
      ensures Step(State(), finding) == OnCallResolved(old(State()), e, dryRun, now)
    {
      var id := CallId(e);
      if id == "" { return None; }
      var rows := Rows(calls, id);
      if |rows| == 0 { return Some(Finding(MissingOffchain, if dryRun then Detected else Quarantined)); }
      var expected := ExpectedStatus(e);
      if rows[0].status != expected {
        if dryRun { return Some(Finding(ValueMismatch, Detected)); }
        var updated := rows;
        for i := 0 to |rows|
          invariant |updated| == |rows|
          invariant forall j :: 0 <= j < i ==> updated[j] == rows[j].(status := expected, resolvedAt := Some(now))
          invariant forall j :: i <= j < |rows| ==> updated[j] == rows[j]
        {
          updated := updated[i := updated[i].(status := expected)];
          updated := updated[i := updated[i].(resolvedAt := Some(now))];
        }
        assert updated == Resolved(rows, expected, now);
        calls := calls[id := updated];
        return Some(Finding(ValueMismatch, Repaired));
      }
      finding := None;
    }

    method ReconcilePayoutClaimed(e: Event, dryRun: bool, now: nat) returns (finding: Option<Finding>)
      modifies this`payouts
      ensures Step(State(), finding) == OnPayoutClaimed(old(State()), e, dryRun, now)
    {
      var key := PayoutKey(e);
      if key.0 == "" || key.1 == "" { return None; }
      if key !in payouts {
        if dryRun { return Some(Finding(MissingOffchain, Detected)); }
        payouts := payouts[key := PayoutRow(Or(e.data.amount, None, "0"), Some(e.txHash), Some(now), Claimed)];
        return Some(Finding(MissingOffchain, Repaired));
      }
      var claim := payouts[key];
      if claim.status != Claimed {
        if dryRun { return Some(Finding(ValueMismatch, Detected)); }
        claim := claim.(status := Claimed);
        claim := claim.(txHash := Some(e.txHash));
        claim := claim.(claimedAt := Some(now));
        payouts := payouts[key := claim];
        return Some(Finding(ValueMismatch, Repaired));
      }
      finding := None;
    }

    method Reconcile(e: Event, dryRun: bool, now: nat) returns (finding: Option<Finding>)
      modifies this`calls, this`stakes, this`payouts
      ensures Step(State(), finding) == ReconcileEvent(old(State()), e, dryRun, now)
    {
      hide OnCallCreated, OnStakeAdded, OnCallResolved, OnPayoutClaimed, KindOf;
      match KindOf(e.name) {
        case CallCreated => finding := ReconcileCallCreated(e, dryRun);
        case StakeAdded => finding := ReconcileStakeAdded(e, dryRun);
        case CallResolved => finding := ReconcileCallResolved(e, dryRun, now);
        case PayoutClaimed => finding := ReconcilePayoutClaimed(e, dryRun, now);
        case Other => finding := None;
      }
    }

    /** The whole run: the tables and the report are those of one pass, the discrepancy
        table grows by what was stored, and the books balance. */
    method ExecuteRun(contracts: seq<string>, events: seq<Event>, dryRun: bool, now: nat) returns (report: Report)
      modifies this
      ensures Run(State(), report) == Pass(old(State()), contracts, events, dryRun, now)
      ensures stored == old(stored) + report.stored
      ensures Accounts(old(State()), Run(State(), report), dryRun)
    {
      hide ReconcileEvent, Accounts, Accepted;
      var breakdown: map<Type, nat> := EMPTY_BREAKDOWN;
      var discrepancies: nat, repaired: nat, quarantined: nat := 0, 0, 0;
      var storedBefore := |stored|;
      ghost var found: seq<Finding> := [];
      for i := 0 to |events|
        invariant Run(State(), Report(discrepancies, repaired, quarantined, breakdown, found))
                  == Pass(old(State()), contracts, events[..i], dryRun, now)
        invariant stored == old(stored) + found
      {
        var e := events[i];
        assert events[..i + 1][..i] == events[..i];
        if !Accepted(contracts, e) {
          discrepancies := discrepancies + 1;
          breakdown := breakdown[UnknownContract := Count(breakdown, UnknownContract) + 1];
          stored := stored + [Finding(UnknownContract, if dryRun then Detected else Quarantined)];
          found := found + [Finding(UnknownContract, if dryRun then Detected else Quarantined)];
          quarantined := quarantined + 1;
        } else {
          var finding := Reconcile(e, dryRun, now);
          if finding.Some? {
            var f := finding.value;
            discrepancies := discrepancies + 1;
            breakdown := breakdown[f.kind := Count(breakdown, f.kind) + 1];
            if f.status == Repaired {
              repaired := repaired + 1;
            } else if f.status == Quarantined {
              quarantined := quarantined + 1;
            }
            stored := stored + [Finding(f.kind, if dryRun then Detected else f.status)];
            found := found + [Finding(f.kind, if dryRun then Detected else f.status)];
          }
        }
      }
      assert events[..|events|] == events;
      report := Report(discrepancies, repaired, quarantined, breakdown, stored[storedBefore..]);
      assert stored[storedBefore..] == found;
      RunAccounts(old(State()), contracts, events, dryRun, now);
    }
  }
}
