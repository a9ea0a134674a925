/** The service and the interceptor around one request, proved against the protocol. */
module IdempotencyService {
  import opened Basics
  import opened CanonicalBody
  import opened Idempotency

  const MAX_KEY_LENGTH: nat := 128

  /** What the wrapped handler does: answer, or throw an error with a status. */
  datatype Outcome = Answers(httpStatus: int, body: Json) | Throws(errorStatus: int, message: string)

  datatype Response = BadRequest | PayloadMismatch | AlreadyRunning | FromStore(httpStatus: int, body: Json)
    | FromHandler(outcome: Outcome)

  /** The steps of the protocol that one request goes through when it runs alone. */
  function RequestSteps(id: Id, fp: Fingerprint, outcome: Outcome, written: bool): seq<Step> {
    [Claim(id, fp),
     match outcome case Answers(status, body) => Return(0, status, body) case Throws(status, m) => Throw(0, status, m),
     Load(0),
     if written then Save(0) else Lose(0)]
  }

  /** The table after the request: untouched unless the claim was granted. */
  function AfterRequest(records: Table, now: nat, id: Id, fp: Fingerprint, outcome: Outcome, written: bool): Table {
    if ClaimAnswer(Find(records, id), fp) != Claimed then records
    else
      var claimed := Placeholder(fp, now);
      records[id := if !written then claimed
                    else match outcome
                         case Answers(status, body) => Completed(claimed, now, status, body)
                         case Throws(status, message) => FailedRecord(claimed, now, status, message)]
  }

  lemma RunFour(s: System, a: Step, b: Step, c: Step, d: Step)
    ensures Run(s, [a, b, c, d]) == Next(Next(Next(Next(s, a), b), c), d)
  {
    hide Next;
    assert [a, b, c, d][..3] == [a, b, c] && [a, b, c][..2] == [a, b] && [a, b][..1] == [a] && [a][..0] == [];
    assert Run(s, [a]) == Next(s, a);
    assert Run(s, [a, b]) == Next(Next(s, a), b);
    assert Run(s, [a, b, c]) == Next(Next(Next(s, a), b), c);
  }

  /** A request that runs alone is one run of the protocol. */
  lemma RequestFollowsProtocol(records: Table, now: nat, id: Id, fp: Fingerprint, outcome: Outcome, written: bool)
    ensures Run(System(now, records, map[], 0), RequestSteps(id, fp, outcome, written)).records
            == AfterRequest(records, now, id, fp, outcome, written)
  {
    hide Run, Completed, FailedRecord;
    var s := System(now, records, map[], 0);
    var steps := RequestSteps(id, fp, outcome, written);
    RunFour(s, steps[0], steps[1], steps[2], steps[3]);
    assert steps == [steps[0], steps[1], steps[2], steps[3]];
    if ClaimAnswer(Find(records, id), fp) == Claimed {
      var claimed := Next(s, steps[0]);
      assert claimed.executors == map[0 := Executor(id, Running)];
      assert claimed.records == records[id := Placeholder(fp, now)];
    }
  }

  class Service {
    var now: nat
    var records: Table

    constructor (now: nat)
      ensures records == map[] && this.now == now
    {
      this.now, records := now, map[];
    }

    /** One serialisable transaction: find the record, then insert, reset or answer. */
    method ClaimOrReplay(id: Id, fp: Fingerprint) returns (r: ClaimResult)
      modifies this`records
      ensures r == ClaimAnswer(Find(old(records), id), fp)
      ensures records == if r == Claimed then old(records)[id := Placeholder(fp, now)] else old(records)
    {
      if id !in records {
        records := records[id := Record(fp, InProgress, None, None, None, now + RETENTION_MS)];
        return Claimed;
      }
      var existing := records[id];
      if existing.fingerprint != fp { return Conflict; }
      if existing.state == InProgress { return StillInProgress; }
      if existing.state == Retryable {
        existing := existing.(state := InProgress);
        existing := existing.(httpStatus := None);
        existing := existing.(body := None);
        existing := existing.(note := None);
        existing := existing.(expiresAt := now + RETENTION_MS);
        records := records[id := existing];
        return Claimed;
      }
      r := Replayed(if existing.httpStatus.Some? then existing.httpStatus.value else 200,
                    if existing.body.Some? then existing.body.value else Object([]));
    }

    method Complete(id: Id, httpStatus: int, responseBody: Json)
      modifies this`records
      ensures records == if id in old(records)
                         then old(records)[id := Completed(old(records)[id], now, httpStatus, responseBody)]
                         else old(records)
    {
      var sanitised := SanitiseEntries(responseBody, 0);
      if id !in records { return; }
      var record := records[id];
      record := record.(state := Success);
      record := record.(httpStatus := Some(httpStatus));
      record := record.(body := Some(sanitised));
      record := record.(note := None);
      record := record.(expiresAt := now + RETENTION_MS);
      records := records[id := record];
    }

    method Fail(id: Id, httpStatus: int, reason: string)
      modifies this`records
      ensures records == if id in old(records)
                         then old(records)[id := FailedRecord(old(records)[id], now, httpStatus, reason)]
                         else old(records)
    {
      var state := if RetryableStatus(httpStatus) then Retryable else Failed;
      if id !in records { return; }
      var record := records[id];
      record := record.(state := state);
      record := record.(httpStatus := Some(httpStatus));
      record := record.(note := Some(if |reason| <= 1024 then reason else reason[..1024]));
      record := record.(expiresAt := now + RETENTION_MS);
      records := records[id := record];
    }

    method CleanupExpired()
      modifies this`records
      ensures records == Cleaned(old(records), now)
      ensures forall id :: id in old(records) && old(records)[id].state == InProgress
                           ==> id in records && records[id] == old(records)[id]
    {
      records := map id | id in records && !(records[id].expiresAt < now && records[id].state != InProgress)
                     :: records[id];
    }

    /** One request: the handler's outcome reaches the client exactly when the claim is
        granted; `written` says whether the final write goes through. */
    method Intercept(id: Id, body: Json, outcome: Outcome, written: bool) returns (response: Response)
      modifies this`records
      ensures |id.key| < 1 || |id.key| > 128 ==> response == BadRequest && records == old(records)
      ensures 1 <= |id.key| <= 128 ==>
                var fp := FingerprintOf(id.principal, id.route, body);
                && records == AfterRequest(old(records), now, id, fp, outcome, written)
                && response == match ClaimAnswer(Find(old(records), id), fp)
                               case Claimed => FromHandler(outcome)
                               case Replayed(status, stored) => FromStore(status, stored)
                               case StillInProgress => AlreadyRunning
                               case Conflict => PayloadMismatch
    {
      hide Completed, FailedRecord, FingerprintOf;
      if |id.key| < 1 || |id.key| > MAX_KEY_LENGTH { return BadRequest; }
      var fp := FingerprintOf(id.principal, id.route, body);
      var result := ClaimOrReplay(id, fp);
      match result {
        case Conflict => return PayloadMismatch;
        case StillInProgress => return AlreadyRunning;
        case Replayed(status, stored) => return FromStore(status, stored);
        case Claimed =>
          if written {
            match outcome {
              case Answers(status, answer) => Complete(id, status, answer);
              case Throws(status, message) => Fail(id, status, message);
            }
          }
          return FromHandler(outcome);
      }
    }
  }
}
