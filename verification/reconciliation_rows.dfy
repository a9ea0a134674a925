/** What a repair writes, told from the text of the events: names, ids and outcomes are
    spelled out here and not taken from the handlers. */
module ReconciliationRows {
  import opened Basics
  import opened Reconciliation
  import opened ReconciliationRuns

  // ---- What an event says ----

  predicate Letter(c: char, lower: char, upper: char) {
    c == lower || c == upper
  }

  /** The text is YES, TRUE or 1, letter case aside. */
  predicate SaysYes(text: string) {
    || (|text| == 1 && text[0] == '1')
    || (|text| == 3 && Letter(text[0], 'y', 'Y') && Letter(text[1], 'e', 'E') && Letter(text[2], 's', 'S'))
    || (|text| == 4 && Letter(text[0], 't', 'T') && Letter(text[1], 'r', 'R') && Letter(text[2], 'u', 'U')
        && Letter(text[3], 'e', 'E'))
  }

  function OutcomeText(e: Event): string {
    match e.data.outcome
    case Some(text) => text
    case None => if e.data.outcomeResult.Some? then e.data.outcomeResult.value else ""
  }

  function CallText(e: Event): string {
    match e.data.callId
    case Some(id) => id
    case None => if e.data.marketId.Some? then e.data.marketId.value else ""
  }

  /** The event comes from a contract of the run. */
  predicate Ours(contracts: seq<string>, e: Event) {
    |contracts| == 0 || exists i :: 0 <= i < |contracts| && contracts[i] == e.contractId
  }

  predicate Resolves(contracts: seq<string>, e: Event, id: string) {
    && Ours(contracts, e) && (e.name == "OutcomeFinalized" || e.name == "call_resolved" || e.name == "call_settled")
    && CallText(e) == id && id != ""
  }

  function StatusOf(t: Tables, id: string): Option<CallStatus> {
    if id in t.calls && |t.calls[id]| > 0 then Some(t.calls[id][0].status) else None
  }

  function Said(e: Event): CallStatus {
    if SaysYes(OutcomeText(e)) then ResolvedYes else ResolvedNo
  }

  // ---- Resolutions ----

  lemma {:induction false} UpperAt(text: string)
    ensures |Upper(text)| == |text|
    ensures forall i :: 0 <= i < |text| ==>
              Upper(text)[i] == if 'a' <= text[i] <= 'z' then text[i] - 'a' + 'A' else text[i]
  {
    if text != [] {
      UpperAt(text[..|text| - 1]);
    }
  }

  lemma UpperSaysYes(text: string)
    ensures Upper(text) in {"YES", "1", "TRUE"} <==> SaysYes(text)
  {
    hide Upper;
    UpperAt(text);
    var upper := Upper(text);
    assert upper == "1" <==> |upper| == 1 && upper[0] == '1';
    assert upper == "YES" <==> |upper| == 3 && upper[0] == 'Y' && upper[1] == 'E' && upper[2] == 'S';
    assert upper == "TRUE"
           <==> |upper| == 4 && upper[0] == 'T' && upper[1] == 'R' && upper[2] == 'U' && upper[3] == 'E';
  }

  lemma ExpectedIsSaid(e: Event)
    ensures ExpectedStatus(e) == Said(e) && CallId(e) == CallText(e)
  {
    hide Upper, SaysYes;
    UpperSaysYes(OutcomeText(e));
  }

  /** Repairing a resolution of an existing call: the row read first ends with the status
      that the text says. If it had another, every row of the call gets it, with the time, and
      keeps its title and creator; if not, nothing changes. No other table and no other call
      is touched. */
  lemma ResolutionFollowsText(t: Tables, e: Event, now: nat)
    requires CallText(e) != "" && StatusOf(t, CallText(e)).Some?
    ensures var step, id := OnCallResolved(t, e, false, now), CallText(e);
      && StatusOf(step.tables, id) == Some(Said(e))
      && (StatusOf(t, id) == Some(Said(e)) ==> step == Step(t, None))
      && (StatusOf(t, id) != Some(Said(e)) ==>
            && step.finding == Some(Finding(ValueMismatch, Repaired))
            && id in step.tables.calls && |step.tables.calls[id]| == |t.calls[id]|
            && forall i :: 0 <= i < |t.calls[id]| ==>
                 var row := t.calls[id][i];
                 step.tables.calls[id][i] == CallRow(row.title, row.creatorAddress, Said(e), Some(now)))
      && step.tables == t.(calls := step.tables.calls)
      && (forall other :: other != id ==> Rows(step.tables.calls, other) == Rows(t.calls, other))
  {
    hide ExpectedStatus, Said, CallId;
    ExpectedIsSaid(e);
  }

  /** The handler for a resolution is chosen by the three names. */
  lemma ResolutionIsNamed(contracts: seq<string>, e: Event, id: string)
    ensures Resolves(contracts, e, id) <==> IsResolution(contracts, e) && CallId(e) == id
  {
    hide ExpectedStatus;
  }

  lemma StatusAfterStep(t: Tables, contracts: seq<string>, e: Event, now: nat, id: string)
    requires StatusOf(t, id).Some?
    ensures StatusOf(Examine(t, contracts, e, false, now).tables, id)
            == if Resolves(contracts, e, id) then Some(Said(e)) else StatusOf(t, id)
  {
    hide KindOf, ExpectedStatus, CreatedId, CallId, NewCall, Creator, User, PayoutKey, Accepted, Resolves, Said,
         OnStakeAdded, OnPayoutClaimed;
    ResolutionIsNamed(contracts, e, id);
    ExpectedIsSaid(e);
    OthersKeepCalls(t, e, now);
  }

  lemma OthersKeepCalls(t: Tables, e: Event, now: nat)
    ensures OnStakeAdded(t, e, false).tables.calls == t.calls
    ensures OnPayoutClaimed(t, e, false, now).tables.calls == t.calls
  {
  }

  /** After a repair pass over tables that had the call: if it was resolved in the pass and
      all its resolutions say the same, its status is what they say; if it was not resolved,
      its status is as before. */
  lemma {:induction false} PassFollowsText(t: Tables, contracts: seq<string>, events: seq<Event>, now: nat, id: string,
                                           status: CallStatus)
    requires StatusOf(t, id).Some?
    requires forall e :: e in events && Resolves(contracts, e, id) ==> Said(e) == status
    ensures StatusOf(After(t, contracts, events, now), id)
            == if exists e :: e in events && Resolves(contracts, e, id) then Some(status) else StatusOf(t, id)
  {
    hide Examine, Resolves, Said, StatusOf, Tally;
    if events != [] {
      var prior, e := events[..|events| - 1], events[|events| - 1];
      assert events == prior + [e];
      assert forall f :: f in events <==> f in prior || f == e;
      PassFollowsText(t, contracts, prior, now, id, status);
      StatusAfterStep(After(t, contracts, prior, now), contracts, e, now, id);
    }
  }

  // ---- Creations, stakes and payouts ----

  function CreatedText(e: Event): string {
    match e.data.callId
    case Some(id) => id
    case None => if e.data.marketId.Some? then e.data.marketId.value else e.txHash
  }

  function StakerText(e: Event): string {
    match e.data.userAddress
    case Some(a) => a
    case None => if e.data.staker.Some? then e.data.staker.value else ""
  }

  function PayeeText(e: Event): string {
    match e.data.stakerAddress
    case Some(a) => a
    case None => if e.data.staker.Some? then e.data.staker.value else ""
  }

  /** The row of a created call: its own title and creator if the event names them. */
  predicate DescribesCall(e: Event, row: CallRow) {
    && row.status == Open && row.resolvedAt == None
    && (e.data.title.Some? ==> row.title == e.data.title.value)
    && (e.data.title.None? ==>
          row.title == "Call " + if |CreatedText(e)| < 8 then CreatedText(e) else CreatedText(e)[..8])
    && (e.data.creatorAddress.Some? ==> row.creatorAddress == e.data.creatorAddress.value)
    && (e.data.creatorAddress.None? && e.data.creator.Some? ==> row.creatorAddress == e.data.creator.value)
    && (e.data.creatorAddress.None? && e.data.creator.None? ==> row.creatorAddress == "SYSTEM")
  }

  /** A creation adds one row, as the event describes it, exactly when the call has none. */
  lemma CreationFollowsText(t: Tables, contracts: seq<string>, e: Event, now: nat)
    requires Ours(contracts, e) && (e.name == "MarketCreated" || e.name == "call_created")
    ensures var t', id := Examine(t, contracts, e, false, now).tables, CreatedText(e);
      && t' == t.(calls := t'.calls)
      && (Rows(t.calls, id) != [] ==> t' == t)
      && (Rows(t.calls, id) == [] ==>
            && id in t'.calls && |t'.calls[id]| == 1 && DescribesCall(e, t'.calls[id][0])
            && forall other :: other != id ==> Rows(t'.calls, other) == Rows(t.calls, other))
  {
    var id := CreatedText(e);
    assert CreatedId(e) == id;
    if Rows(t.calls, id) == [] {
      assert |id| == 8 ==> id[..8] == id;
      assert DescribesCall(e, NewCall(e));
    }
  }

  /** A stake event that names call and user adds a row with the event's amount exactly when
      the pair has none; without one of the names it changes nothing. */
  lemma StakeFollowsText(t: Tables, contracts: seq<string>, e: Event, now: nat)
    requires Ours(contracts, e) && (e.name == "BetPlaced" || e.name == "stake_added")
    ensures var step, key := Examine(t, contracts, e, false, now), (CallText(e), StakerText(e));
      && step.tables == t.(stakes := step.tables.stakes)
      && (key.0 == "" || key.1 == "" ==> step == Step(t, Some(Finding(Unrecoverable, Quarantined))))
      && (key.0 != "" && key.1 != "" ==>
            && (Rows(t.stakes, key) != [] ==> step == Step(t, None))
            && (Rows(t.stakes, key) == [] ==>
                  step.tables.stakes
                  == t.stakes[key := [if e.data.amount.Some? then e.data.amount.value else "0"]]))
  {
  }

  /** A payout event that names call and payee leaves a claimed row: a new one with the
      event's amount, or the old one with its amount; the transaction and time are those of
      the event unless the row was claimed already. */
  lemma PayoutFollowsText(t: Tables, contracts: seq<string>, e: Event, now: nat)
    requires Ours(contracts, e) && e.name == "PayoutClaimed"
    ensures var step := Examine(t, contracts, e, false, now);
      var key := (if e.data.callId.Some? then e.data.callId.value else "", PayeeText(e));
      && step.tables == t.(payouts := step.tables.payouts)
      && (key.0 == "" || key.1 == "" ==> step == Step(t, None))
      && (key.0 != "" && key.1 != "" ==>
            && key in step.tables.payouts && step.tables.payouts == t.payouts[key := step.tables.payouts[key]]
            && step.tables.payouts[key].status == Claimed
            && (if key in t.payouts && t.payouts[key].status == Claimed then step.tables.payouts[key] == t.payouts[key]
                else
                  && step.tables.payouts[key].txHash == Some(e.txHash)
                  && step.tables.payouts[key].claimedAt == Some(now)
                  && step.tables.payouts[key].amount
                     == if key in t.payouts then t.payouts[key].amount
                        else if e.data.amount.Some? then e.data.amount.value else "0"))
  {
  }

  /** An event of another contract, or with another name, changes nothing. */
  lemma OthersAreIgnored(t: Tables, contracts: seq<string>, e: Event, dryRun: bool, now: nat)
    requires !Ours(contracts, e)
             || e.name !in {"MarketCreated", "call_created", "BetPlaced", "stake_added", "OutcomeFinalized",
                            "call_resolved", "call_settled", "PayoutClaimed"}
    ensures Examine(t, contracts, e, dryRun, now)
            == Step(t, if Ours(contracts, e) then None else Some(Finding(UnknownContract, Quarantined)))
  {
  }

  // ---- What is reported ----

  /** What a creation of a stored call reports in repair mode: several rows, or another
      creator than the event names. */
  lemma CreationReports(t: Tables, contracts: seq<string>, e: Event, now: nat)
    requires Ours(contracts, e) && (e.name == "MarketCreated" || e.name == "call_created")
    ensures var finding, rows := Examine(t, contracts, e, false, now).finding, Rows(t.calls, CreatedText(e));
      && (|rows| == 0 ==> finding == Some(Finding(MissingOffchain, Repaired)))
      && (|rows| > 1 ==> finding == Some(Finding(DuplicateOffchain, Quarantined)))
      && (|rows| == 1 ==>
            finding == if DescribesOther(e, rows[0].creatorAddress) then Some(Finding(ValueMismatch, Quarantined))
                       else None)
  {
  }

  /** The event names a creator, not the system, and it is another address. */
  predicate DescribesOther(e: Event, address: string) {
    match e.data.creatorAddress
    case Some(a) => a != "SYSTEM" && a != address
    case None => e.data.creator.Some? && e.data.creator.value != "SYSTEM" && e.data.creator.value != address
  }

  /** A resolution of a call without rows cannot be repaired. */
  lemma ResolutionOfNothing(t: Tables, e: Event, dryRun: bool, now: nat)
    requires CallText(e) != "" && StatusOf(t, CallText(e)).None?
    ensures OnCallResolved(t, e, dryRun, now)
            == Step(t, Some(Finding(MissingOffchain, if dryRun then Detected else Quarantined)))
  {
  }

  /** A dry run foretells what a repair of the same event in the same tables would find: the
      same kind, or nothing. */
  lemma DryRunForetells(t: Tables, contracts: seq<string>, e: Event, now: nat)
    ensures var dry, repair := Examine(t, contracts, e, true, now), Examine(t, contracts, e, false, now);
      && dry.tables == t
      && (dry.finding.Some? <==> repair.finding.Some?)
      && (dry.finding.Some? ==> dry.finding.value.kind == repair.finding.value.kind)
  {
    hide KindOf, ExpectedStatus, CreatedId, CallId, NewCall, Creator, User, PayoutKey, Accepted, Resolved;
  }

  function OfKind(stored: seq<Finding>, kind: Type): nat {
    if stored == [] then 0
    else OfKind(stored[..|stored| - 1], kind) + if stored[|stored| - 1].kind == kind then 1 else 0
  }

  /** The breakdown counts the stored findings kind by kind. */
  lemma {:induction false} BreakdownIsExact(t: Tables, contracts: seq<string>, events: seq<Event>, dryRun: bool,
                                            now: nat, kind: Type)
    ensures var r := Pass(t, contracts, events, dryRun, now).report; Count(r.breakdown, kind) == OfKind(r.stored, kind)
  {
    hide Examine, Tally, OfKind, Count;
    if events == [] {
      NothingCounted(kind);
    } else {
      var before := Pass(t, contracts, events[..|events| - 1], dryRun, now);
      BreakdownIsExact(t, contracts, events[..|events| - 1], dryRun, now, kind);
      TallyIsExact(before.report, Examine(before.tables, contracts, events[|events| - 1], dryRun, now).finding, dryRun,
                   kind);
    }
  }

  lemma TallyIsExact(r: Report, finding: Option<Finding>, dryRun: bool, kind: Type)
    requires Count(r.breakdown, kind) == OfKind(r.stored, kind)
    ensures var r' := Tally(r, finding, dryRun); Count(r'.breakdown, kind) == OfKind(r'.stored, kind)
  {
    hide OfKind, Total;
    if finding.Some? {
      CountOneMore(r.breakdown, finding.value.kind);
      StoredOneMore(r.stored, Finding(finding.value.kind, if dryRun then Detected else finding.value.status), kind);
    }
  }

  lemma NothingCounted(kind: Type)
    ensures Count(EMPTY_BREAKDOWN, kind) == 0 == OfKind([], kind)
  {
  }

  lemma StoredOneMore(stored: seq<Finding>, f: Finding, kind: Type)
    ensures OfKind(stored + [f], kind) == OfKind(stored, kind) + if f.kind == kind then 1 else 0
  {
    assert (stored + [f])[..|stored|] == stored;
  }
}
