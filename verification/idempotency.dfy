/** The idempotency boundary as a protocol: claims, executors that run a handler and
    then load and save their record, lost writes and crashes, and the cleanup job, in
    any interleaving. */
module Idempotency {
  import opened Basics
  import opened CanonicalBody

  const RETENTION_MS: nat := 86_400_000

  datatype Id = Id(key: string, route: string, principal: string)

  /** The digest of principal, route and canonical body, taken to be collision-free. */
  datatype Fingerprint = Fingerprint(principal: string, route: string, canonical: Json)

  function FingerprintOf(principal: string, route: string, body: Json): Fingerprint {
    Fingerprint(principal, route, SortedKeys(body))
  }

  datatype State = InProgress | Success | Failed | Retryable

  datatype Record = Record(fingerprint: Fingerprint, state: State, httpStatus: Option<int>, body: Option<Json>,
                           note: Option<string>, expiresAt: nat)

  datatype ClaimResult = Claimed | Replayed(httpStatus: int, body: Json) | StillInProgress | Conflict

  predicate RetryableStatus(httpStatus: int) {
    httpStatus in {408, 429, 502, 503, 504}
  }

  function Placeholder(fp: Fingerprint, now: nat): Record {
    Record(fp, InProgress, None, None, None, now + RETENTION_MS)
  }

  /** What a claim answers, given the stored record if there is one. */
  function ClaimAnswer(existing: Option<Record>, fp: Fingerprint): ClaimResult {
    match existing
    case None => Claimed
    case Some(r) =>
      if r.fingerprint != fp then Conflict
      else
        match r.state
        case InProgress => StillInProgress
        case Retryable => Claimed
        case _ => Replayed(if r.httpStatus.Some? then r.httpStatus.value else 200,
                           if r.body.Some? then r.body.value else Object([]))
  }

  function Completed(r: Record, now: nat, httpStatus: int, body: Json): Record {
    r.(state := Success, httpStatus := Some(httpStatus), body := Some(Sanitise(body, 0)), note := None,
       expiresAt := now + RETENTION_MS)
  }

  function FailedRecord(r: Record, now: nat, httpStatus: int, reason: string): Record {
    r.(state := if RetryableStatus(httpStatus) then Retryable else Failed, httpStatus := Some(httpStatus),
       note := Some(if |reason| <= 1024 then reason else reason[..1024]), expiresAt := now + RETENTION_MS)
  }

  predicate Expired(r: Record, now: nat) {
    r.expiresAt < now && r.state != InProgress
  }

  type Table = map<Id, Record>

  function Find(records: Table, id: Id): Option<Record> {
    if id in records then Some(records[id]) else None
  }

  function Cleaned(records: Table, now: nat): Table {
    map id | id in records && !Expired(records[id], now) :: records[id]
  }

  // ---- The protocol ----

  /** Where an executor stands: its handler runs, or has returned, or the record has
      been loaded and is about to be saved. */
  datatype Phase = Running | Returned(httpStatus: int, body: Json) | Threw(errorStatus: int, reason: string)
    | Saving(record: Record)

  datatype Executor = Executor(id: Id, phase: Phase)

  datatype System = System(now: nat, records: Table, executors: map<nat, Executor>, started: nat)

  datatype Step =
    | Claim(id: Id, fp: Fingerprint)
    | Return(executor: nat, httpStatus: int, body: Json)
    | Throw(executor: nat, errorStatus: int, reason: string)
    | Load(executor: nat)
    | Save(executor: nat)
    | Lose(executor: nat)
    | Cleanup
    | Tick(elapsed: nat)

  function ClaimStep(s: System, id: Id, fp: Fingerprint): System {
    if ClaimAnswer(Find(s.records, id), fp) == Claimed then
      s.(records := s.records[id := Placeholder(fp, s.now)],
         executors := s.executors[s.started := Executor(id, Running)],
         started := s.started + 1)
    else s
  }

  function Move(s: System, e: nat, phase: Phase): System
    requires e in s.executors
  {
    s.(executors := s.executors[e := s.executors[e].(phase := phase)])
  }

  function Leave(s: System, e: nat): System {
    s.(executors := s.executors - {e})
  }

  /** One step of the whole system; a step that is not enabled changes nothing. An
      executor may get lost at any point: its process dies or its write fails. */
  function Next(s: System, step: Step): System {
    match step
    case Claim(id, fp) => ClaimStep(s, id, fp)
    case Return(e, httpStatus, body) =>
      if e in s.executors && s.executors[e].phase.Running? then Move(s, e, Returned(httpStatus, body)) else s
    case Throw(e, httpStatus, reason) =>
      if e in s.executors && s.executors[e].phase.Running? then Move(s, e, Threw(httpStatus, reason)) else s
    case Load(e) => LoadStep(s, e)
    case Save(e) =>
      if e in s.executors && s.executors[e].phase.Saving?
      then Leave(s.(records := s.records[s.executors[e].id := s.executors[e].phase.record]), e)
      else s
    case Lose(e) => Leave(s, e)
    case Cleanup => s.(records := Cleaned(s.records, s.now))
    case Tick(elapsed) => s.(now := s.now + elapsed)
  }

  function LoadStep(s: System, e: nat): System {
    if e !in s.executors then s
    else
      var id := s.executors[e].id;
      match s.executors[e].phase
      case Returned(httpStatus, body) =>
        if id in s.records then Move(s, e, Saving(Completed(s.records[id], s.now, httpStatus, body))) else Leave(s, e)
      case Threw(httpStatus, reason) =>
        if id in s.records then Move(s, e, Saving(FailedRecord(s.records[id], s.now, httpStatus, reason)))
        else Leave(s, e)
      case _ => s
  }

  function Run(s: System, steps: seq<Step>): System {
    if steps == [] then s else Next(Run(s, steps[..|steps| - 1]), steps[|steps| - 1])
  }

  predicate Empty(s: System) {
    s.records == map[] && s.executors == map[] && s.started == 0
  }
}

/** The guarantees of the boundary over every interleaving. */
module IdempotencyRuns {
  import opened Basics
  import opened CanonicalBody
  import opened Idempotency

  // ---- At most one executor ----

  /** Each executor owns an IN_PROGRESS record that no other executor owns; what it is
      about to save keeps the fingerprint and ends the progress. */
  ghost predicate Exclusive(s: System) {
    && (forall e :: e in s.executors ==>
          && e < s.started
          && s.executors[e].id in s.records
          && s.records[s.executors[e].id].state == InProgress
          && (s.executors[e].phase.Saving? ==>
                && s.executors[e].phase.record.state != InProgress
                && s.executors[e].phase.record.fingerprint == s.records[s.executors[e].id].fingerprint))
    && (forall e, f :: e in s.executors && f in s.executors && s.executors[e].id == s.executors[f].id ==> e == f)
  }

  lemma ClaimKeepsExclusive(s: System, id: Id, fp: Fingerprint)
    requires Exclusive(s)
    ensures Exclusive(ClaimStep(s, id, fp))
  {
  }

  lemma MoveKeepsExclusive(s: System, e: nat, phase: Phase)
    requires Exclusive(s) && e in s.executors
    requires phase.Saving? ==> phase.record.state != InProgress
                               && phase.record.fingerprint == s.records[s.executors[e].id].fingerprint
    ensures Exclusive(Move(s, e, phase))
  {
  }

  lemma SaveKeepsExclusive(s: System, e: nat)
    requires Exclusive(s) && e in s.executors && s.executors[e].phase.Saving?
    ensures Exclusive(Leave(s.(records := s.records[s.executors[e].id := s.executors[e].phase.record]), e))
  {
  }

  lemma LeaveKeepsExclusive(s: System, e: nat)
    requires Exclusive(s)
    ensures Exclusive(Leave(s, e))
  {
  }

  lemma CleanupKeepsExclusive(s: System)
    requires Exclusive(s)
    ensures Exclusive(s.(records := Cleaned(s.records, s.now)))
  {
  }

  lemma LoadKeepsExclusive(s: System, e: nat)
    requires Exclusive(s)
    ensures Exclusive(LoadStep(s, e))
  {
    hide Sanitise;
    if e in s.executors {
      var id := s.executors[e].id;
      match s.executors[e].phase
      case Returned(httpStatus, body) =>
        MoveKeepsExclusive(s, e, Saving(Completed(s.records[id], s.now, httpStatus, body)));
      case Threw(httpStatus, reason) =>
        MoveKeepsExclusive(s, e, Saving(FailedRecord(s.records[id], s.now, httpStatus, reason)));
      case _ =>
    }
  }

  lemma StepKeepsExclusive(s: System, step: Step)
    requires Exclusive(s)
    ensures Exclusive(Next(s, step))
  {
    hide ClaimStep, LoadStep, Move, Leave, Cleaned, Exclusive;
    match step
    case Claim(id, fp) => ClaimKeepsExclusive(s, id, fp);
    case Return(e, httpStatus, body) =>
      if e in s.executors { MoveKeepsExclusive(s, e, Returned(httpStatus, body)); }
    case Throw(e, httpStatus, reason) =>
      if e in s.executors { MoveKeepsExclusive(s, e, Threw(httpStatus, reason)); }
    case Load(e) => LoadKeepsExclusive(s, e);
    case Save(e) =>
      if e in s.executors && s.executors[e].phase.Saving? { SaveKeepsExclusive(s, e); }
    case Lose(e) => LeaveKeepsExclusive(s, e);
    case Cleanup => CleanupKeepsExclusive(s);
    case Tick(elapsed) => TickKeepsExclusive(s, elapsed);
  }

  lemma TickKeepsExclusive(s: System, elapsed: nat)
    requires Exclusive(s)
    ensures Exclusive(s.(now := s.now + elapsed))
  {
  }

  lemma {:induction false} RunKeepsExclusive(s: System, steps: seq<Step>)
    requires Exclusive(s)
    ensures Exclusive(Run(s, steps))
  {
    hide Next, Exclusive;
    if steps != [] {
      RunKeepsExclusive(s, steps[..|steps| - 1]);
      StepKeepsExclusive(Run(s, steps[..|steps| - 1]), steps[|steps| - 1]);
    }
  }

  /** In every interleaving at most one executor is live for a key, route and principal,
      and while it is live its record exists and is IN_PROGRESS. */
  lemma AtMostOneExecutor(s: System, steps: seq<Step>, e: nat, f: nat)
    requires Empty(s)
    ensures var t := Run(s, steps);
      && (e in t.executors ==> t.executors[e].id in t.records && t.records[t.executors[e].id].state == InProgress)
      && (e in t.executors && f in t.executors && t.executors[e].id == t.executors[f].id ==> e == f)
  {
    RunKeepsExclusive(s, steps);
  }

  /** In every run, while an executor is live, every further claim for its key, route and
      principal changes nothing: the same fingerprint is told to wait, any other is refused. */
  lemma LiveExecutorAnswers(s: System, steps: seq<Step>, e: nat, fp: Fingerprint)
    requires Empty(s) && e in Run(s, steps).executors
    ensures var t, id := Run(s, steps), Run(s, steps).executors[e].id;
      && id in t.records && ClaimStep(t, id, fp) == t
      && ClaimAnswer(Find(t.records, id), fp) == if fp == t.records[id].fingerprint then StillInProgress else Conflict
  {
    hide Run;
    AtMostOneExecutor(s, steps, e, e);
  }

  /** A claim is granted exactly if there is no record, or one with the same fingerprint whose
      last failure may be retried. It leaves a record in progress with this fingerprint for 24
      hours and one new executor; a claim that is not granted changes nothing. */
  lemma ClaimIsGrantedIff(s: System, id: Id, fp: Fingerprint)
    ensures var t := ClaimStep(s, id, fp);
      if id !in s.records || (s.records[id].fingerprint == fp && s.records[id].state == Retryable) then
        && t.records == s.records[id := Record(fp, InProgress, None, None, None, s.now + 86_400_000)]
        && t.executors == s.executors[s.started := Executor(id, Running)]
        && t.started == s.started + 1 && t.now == s.now
      else t == s
  {
  }

  // ---- A finished record answers every claim ----

  predicate Terminal(r: Record) {
    r.state == Success || r.state == Failed
  }

  /** A finished record changes only by being cleaned up after it has expired. */
  lemma StepKeepsTerminal(s: System, step: Step, id: Id)
    requires Exclusive(s) && id in s.records && Terminal(s.records[id])
    ensures id in Next(s, step).records ==> Next(s, step).records[id] == s.records[id]
    ensures (step.Cleanup? ==> s.now <= s.records[id].expiresAt) ==> id in Next(s, step).records
  {
    hide Sanitise, Completed, FailedRecord, SortedKeys;
  }

  /** No cleanup of the run comes after the expiry time of a record. */
  predicate CleanupSpares(s: System, steps: seq<Step>, expiresAt: nat) {
    forall i :: 0 <= i < |steps| && steps[i].Cleanup? ==> Run(s, steps[..i]).now <= expiresAt
  }

  lemma SparesPrefix(s: System, steps: seq<Step>, expiresAt: nat, k: nat)
    requires k <= |steps| && CleanupSpares(s, steps, expiresAt)
    ensures CleanupSpares(s, steps[..k], expiresAt)
  {
    hide Run;
    forall i | 0 <= i < k && steps[i].Cleanup? ensures Run(s, steps[..k][..i]).now <= expiresAt {
      assert steps[..k][..i] == steps[..i];
    }
  }

  /** Until it is cleaned up, expired or not, a finished record stays exactly as it is in
      every run. */
  lemma {:induction false} TerminalUntilCleanup(s: System, steps: seq<Step>, id: Id)
    requires Exclusive(s) && id in s.records && Terminal(s.records[id])
    requires CleanupSpares(s, steps, s.records[id].expiresAt)
    ensures id in Run(s, steps).records && Run(s, steps).records[id] == s.records[id]
  {
    hide Next, Exclusive, CleanupSpares;
    if steps != [] {
      var n := |steps| - 1;
      var prior := steps[..n];
      SparesPrefix(s, steps, s.records[id].expiresAt, n);
      TerminalUntilCleanup(s, prior, id);
      RunKeepsExclusive(s, prior);
      LastSpared(s, steps, s.records[id].expiresAt);
      StepKeepsTerminal(Run(s, prior), steps[n], id);
    }
  }

  lemma LastSpared(s: System, steps: seq<Step>, expiresAt: nat)
    requires steps != [] && CleanupSpares(s, steps, expiresAt)
    ensures steps[|steps| - 1].Cleanup? ==> Run(s, steps[..|steps| - 1]).now <= expiresAt
  {
  }

  /** The condition is exact: the record is present after every step of the run if and only
      if no cleanup came after its expiry. */
  lemma PresentIffSpared(s: System, steps: seq<Step>, id: Id)
    requires Exclusive(s) && id in s.records && Terminal(s.records[id])
    ensures (forall k :: 0 <= k <= |steps| ==> id in Run(s, steps[..k]).records)
            <==> CleanupSpares(s, steps, s.records[id].expiresAt)
  {
    hide Run, Exclusive, CleanupSpares;
    var expiresAt := s.records[id].expiresAt;
    if CleanupSpares(s, steps, expiresAt) {
      forall k | 0 <= k <= |steps| ensures id in Run(s, steps[..k]).records {
        SparesPrefix(s, steps, expiresAt, k);
        TerminalUntilCleanup(s, steps[..k], id);
      }
    } else {
      var i := FirstUnspared(s, steps, expiresAt);
      TerminalUntilCleanup(s, steps[..i], id);
      CleanupRemoves(s, steps, i, id);
    }
  }

  /** The first cleanup that comes after the expiry time. */
  lemma {:induction false} FirstUnspared(s: System, steps: seq<Step>, expiresAt: nat) returns (i: nat)
    requires !CleanupSpares(s, steps, expiresAt)
    ensures i < |steps| && steps[i].Cleanup? && Run(s, steps[..i]).now > expiresAt
    ensures CleanupSpares(s, steps[..i], expiresAt)
    decreases |steps|
  {
    hide Run;
    var k :| 0 <= k < |steps| && steps[k].Cleanup? && Run(s, steps[..k]).now > expiresAt;
    if CleanupSpares(s, steps[..k], expiresAt) {
      i := k;
    } else {
      i := FirstUnspared(s, steps[..k], expiresAt);
      assert steps[..k][..i] == steps[..i];
    }
  }

  lemma CleanupRemoves(s: System, steps: seq<Step>, i: nat, id: Id)
    requires i < |steps| && steps[i].Cleanup? && id in Run(s, steps[..i]).records
    requires Expired(Run(s, steps[..i]).records[id], Run(s, steps[..i]).now)
    ensures id !in Run(s, steps[..i + 1]).records
  {
    assert steps[..i + 1][..i] == steps[..i];
  }

  /** Until cleanup, before and after the retention time, every later claim with the same
      fingerprint is answered with the stored status and sanitised body, any other
      fingerprint with a conflict, and neither starts an executor nor changes anything. */
  lemma ReplaysUntilCleanup(s: System, steps: seq<Step>, id: Id, fp: Fingerprint)
    requires Exclusive(s) && id in s.records && s.records[id].state == Success
    requires CleanupSpares(s, steps, s.records[id].expiresAt)
    ensures var t, r := Run(s, steps), s.records[id];
      && ClaimStep(t, id, fp) == t
      && ClaimAnswer(Find(t.records, id), fp)
         == if fp == r.fingerprint then Replayed(if r.httpStatus.Some? then r.httpStatus.value else 200,
                                                 if r.body.Some? then r.body.value else Object([]))
            else Conflict
  {
    hide Exclusive, Run, CleanupSpares;
    TerminalUntilCleanup(s, steps, id);
  }

  /** What a completed execution leaves behind is what a claim gets from then on, until a
      cleanup more than 24 hours later removes it. */
  lemma CompletionIsReplayed(s: System, e: nat, httpStatus: int, body: Json, steps: seq<Step>)
    requires Exclusive(s) && e in s.executors && s.executors[e].phase == Returned(httpStatus, body)
    requires CleanupSpares(Run(s, [Load(e), Save(e)]), steps, s.now + 86_400_000)
    ensures var id := s.executors[e].id;
      var fp, t := s.records[id].fingerprint, Run(Run(s, [Load(e), Save(e)]), steps);
      ClaimAnswer(Find(t.records, id), fp) == Replayed(httpStatus, Sanitise(body, 0)) && Clean(Sanitise(body, 0))
  {
    hide Sanitise, Exclusive, Clean, CleanupSpares;
    var id := s.executors[e].id;
    var u := Run(s, [Load(e), Save(e)]);
    assert [Load(e), Save(e)][..1] == [Load(e)] && [Load(e)][..0] == [];
    assert id in s.records by { OwnsRecord(s, e); }
    assert Run(s, [Load(e)]) == Next(s, Load(e));
    assert u == Next(Next(s, Load(e)), Save(e));
    RunKeepsExclusive(s, [Load(e), Save(e)]);
    ReplaysUntilCleanup(u, steps, id, s.records[id].fingerprint);
    SanitisedIsClean(body, 0);
  }

  lemma FailureIsStored(s: System, e: nat, httpStatus: int, reason: string)
    requires Exclusive(s) && e in s.executors && s.executors[e].phase == Threw(httpStatus, reason)
    ensures var id, u := s.executors[e].id, Run(s, [Load(e), Save(e)]);
      id in s.records && u.records == s.records[id := FailedRecord(s.records[id], s.now, httpStatus, reason)]
  {
    hide FailedRecord, Completed, ClaimStep, Cleaned, Sanitise;
    OwnsRecord(s, e);
    assert [Load(e), Save(e)][..1] == [Load(e)] && [Load(e)][..0] == [];
    assert Run(s, [Load(e)]) == Next(s, Load(e));
    assert Run(s, [Load(e), Save(e)]) == Next(Next(s, Load(e)), Save(e));
  }

  /** Once a failure is stored, the next claim with the same fingerprint is granted exactly if
      the status was 408, 429, 502, 503 or 504. Any other status is what such claims are
      answered with, whatever happens, until a cleanup more than 24 hours later. */
  lemma FailureIsRetriedIff(s: System, e: nat, httpStatus: int, reason: string, steps: seq<Step>)
    requires Exclusive(s) && e in s.executors && s.executors[e].phase == Threw(httpStatus, reason)
    requires CleanupSpares(Run(s, [Load(e), Save(e)]), steps, s.now + 86_400_000)
    ensures var id, u := s.executors[e].id, Run(s, [Load(e), Save(e)]);
      && id in s.records && id in u.records && u.records[id].note.Some?
      && (ClaimAnswer(Find(u.records, id), s.records[id].fingerprint) == Claimed
          <==> httpStatus == 408 || httpStatus == 429 || 502 <= httpStatus <= 504)
      && (!(httpStatus == 408 || httpStatus == 429 || 502 <= httpStatus <= 504) ==>
            var answer := ClaimAnswer(Find(Run(u, steps).records, id), s.records[id].fingerprint);
            answer.Replayed? && answer.httpStatus == httpStatus)
      && |u.records[id].note.value| <= 1024 && u.records[id].note.value <= reason
      && (|reason| <= 1024 ==> u.records[id].note.value == reason)
  {
    hide Exclusive, CleanupSpares, Run;
    var id, u := s.executors[e].id, Run(s, [Load(e), Save(e)]);
    FailureIsStored(s, e, httpStatus, reason);
    RunKeepsExclusive(s, [Load(e), Save(e)]);
    if !RetryableStatus(httpStatus) {
      TerminalUntilCleanup(u, steps, id);
    }
  }

  lemma OwnsRecord(s: System, e: nat)
    requires Exclusive(s) && e in s.executors
    ensures s.executors[e].id in s.records
  {
  }

  /** For bodies of the same principal and route the fingerprints agree exactly when the
      bodies are equal up to the order of keys. */
  lemma SameFingerprintIff(principal: string, route: string, body: Json, other: Json)
    requires WellFormed(body) && WellFormed(other)
    ensures FingerprintOf(principal, route, body) == FingerprintOf(principal, route, other)
            <==> SameUpToOrder(body, other)
  {
    CanonicalIff(body, other);
  }

  // ---- How often the handler runs within one lifetime of a record ----

  /** Claims granted and retryable failures saved since the record last came into being. */
  datatype Tally = Tally(granted: nat, retryable: nat)

  function Count(s: System, steps: seq<Step>, id: Id): Tally {
    if steps == [] then Tally(0, 0)
    else CountStep(Run(s, steps[..|steps| - 1]), steps[|steps| - 1], id, Count(s, steps[..|steps| - 1], id))
  }

  function CountStep(s: System, step: Step, id: Id, tally: Tally): Tally {
    if id !in s.records && id in Next(s, step).records then Tally(1, 0)
    else if step.Claim? && step.id == id && Next(s, step).started == s.started + 1
    then tally.(granted := tally.granted + 1)
    else if step.Save? && id in s.records && s.records[id].state == InProgress
            && id in Next(s, step).records && Next(s, step).records[id].state == Retryable
    then tally.(retryable := tally.retryable + 1)
    else tally
  }

  predicate Balanced(s: System, id: Id, tally: Tally) {
    id in s.records ==> tally.granted == tally.retryable + if s.records[id].state == Retryable then 0 else 1
  }

  lemma StepKeepsBalance(s: System, step: Step, id: Id, tally: Tally)
    requires Exclusive(s) && Balanced(s, id, tally)
    ensures Balanced(Next(s, step), id, CountStep(s, step, id, tally))
  {
    hide Sanitise, Completed, FailedRecord, SortedKeys;
  }

  /** Within one lifetime of a record the handler is started exactly once more than it
      failed retryably, or as often if such a failure is what the record holds now: never
      more than one plus the retryable failures. */
  lemma {:induction false} GrantsWithinRetries(s: System, steps: seq<Step>, id: Id)
    requires Empty(s)
    ensures Balanced(Run(s, steps), id, Count(s, steps, id))
    ensures id in Run(s, steps).records ==> Count(s, steps, id).granted <= 1 + Count(s, steps, id).retryable
  {
    hide Next, CountStep, Exclusive;
    if steps != [] {
      var prior := steps[..|steps| - 1];
      GrantsWithinRetries(s, prior, id);
      assert Exclusive(s) by { EmptyIsExclusive(s); }
      RunKeepsExclusive(s, prior);
      StepKeepsBalance(Run(s, prior), steps[|steps| - 1], id, Count(s, prior, id));
    }
  }

  lemma EmptyIsExclusive(s: System)
    requires Empty(s)
    ensures Exclusive(s)
  {
  }

  /** An executor that gets lost blocks its key for good: no claim is granted again, and
      cleanup never removes the record. */
  lemma {:induction false} LostExecutorBlocks(s: System, steps: seq<Step>, id: Id)
    requires Exclusive(s) && id in s.records && s.records[id].state == InProgress
    requires forall e :: e in s.executors ==> s.executors[e].id != id
    ensures var t := Run(s, steps);
      id in t.records && t.records[id] == s.records[id] && forall e :: e in t.executors ==> t.executors[e].id != id
  {
    hide Next, Exclusive;
    if steps != [] {
      var prior := steps[..|steps| - 1];
      LostExecutorBlocks(s, prior, id);
      RunKeepsExclusive(s, prior);
      StepKeepsBlocked(Run(s, prior), steps[|steps| - 1], id);
    }
  }

  lemma StepKeepsBlocked(s: System, step: Step, id: Id)
    requires id in s.records && s.records[id].state == InProgress
    requires forall e :: e in s.executors ==> s.executors[e].id != id
    ensures id in Next(s, step).records && Next(s, step).records[id] == s.records[id]
    ensures forall e :: e in Next(s, step).executors ==> Next(s, step).executors[e].id != id
  {
    hide Sanitise, Completed, FailedRecord, SortedKeys;
  }
}
