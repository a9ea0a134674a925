/** Overlapping inserts: what a replay misses when an event becomes visible behind a
    snapshot that was computed without it. */
module EventVisibility {
  import opened Basics
  import opened EventStore
  import opened EventStoreRuns

  /** The aggregate's events whose sequence is one of these. */
  function Pick(events: seq<Event>, a: Aggregate, sequences: set<nat>): seq<Event> {
    if events == [] then []
    else
      var e := events[|events| - 1];
      Pick(events[..|events| - 1], a, sequences) + if e.aggregate == a && e.sequence in sequences then [e] else []
  }

  lemma PickOne(prior: seq<Event>, e: Event, a: Aggregate, sequences: set<nat>)
    ensures Pick(prior + [e], a, sequences)
            == Pick(prior, a, sequences) + if e.aggregate == a && e.sequence in sequences then [e] else []
  {
    assert (prior + [e])[..|prior|] == prior;
  }

  /** A snapshot holds the fold of these events, all of them visible and none behind it. */
  ghost predicate Holds(events: seq<Event>, x: Snapshot, sequences: set<nat>) {
    && (forall q :: q in sequences ==> q <= x.sequence && !Unused(events, q))
    && SameCore(Start(Some(x)), Fold(BLANK, Pick(events, x.aggregate, sequences)))
  }

  /** A snapshot holds the fold of some of the visible events up to its sequence. */
  ghost predicate Partial(events: seq<Event>, x: Snapshot) {
    exists sequences :: Holds(events, x, sequences)
  }

  ghost predicate Reachable(s: Store) {
    Tidy(s) && forall x :: x in s.snapshots || x in s.drafts ==> Partial(s.events, x)
  }

  // ---- Every run keeps it ----

  lemma {:induction false} InsertedPick(events: seq<Event>, e: Event, a: Aggregate, sequences: set<nat>)
    requires e.sequence !in sequences
    ensures Pick(Insert(events, e), a, sequences) == Pick(events, a, sequences)
  {
    hide Pick;
    if events == [] || events[|events| - 1].sequence < e.sequence {
      PickOne(events, e, a, sequences);
    } else {
      var prior, last := events[..|events| - 1], events[|events| - 1];
      InsertedPick(prior, e, a, sequences);
      PickOne(prior, last, a, sequences);
      PickOne(Insert(prior, e), last, a, sequences);
      assert prior + [last] == events;
    }
  }

  lemma InsertKeepsPartial(events: seq<Event>, e: Event, x: Snapshot)
    requires Partial(events, x) && Unused(events, e.sequence)
    ensures Partial(Insert(events, e), x)
  {
    hide Pick, Insert, Fold, Unused;
    var sequences :| Holds(events, x, sequences);
    InsertedPick(events, e, x.aggregate, sequences);
    forall q | q in sequences ensures !Unused(Insert(events, e), q) {
      InsertedUses(events, e, q);
    }
    assert Holds(Insert(events, e), x, sequences);
  }

  lemma InsertedUses(events: seq<Event>, e: Event, q: nat)
    requires !Unused(events, q)
    ensures !Unused(Insert(events, e), q)
  {
    InsertedElements(events, e);
  }

  function Sequences(events: seq<Event>): set<nat> {
    set e | e in events :: e.sequence
  }

  /** The latest snapshot's events and those behind it are what the next one holds. */
  lemma {:induction false} PickSplits(events: seq<Event>, a: Aggregate, low: nat, sequences: set<nat>, rest: set<nat>)
    requires Increasing(events) && forall q :: q in sequences ==> q < low
    requires rest == Sequences(From(events, a, low))
    ensures Pick(events, a, sequences + rest) == Pick(events, a, sequences) + From(events, a, low)
  {
    hide Pick;
    FromElements(events, a, low);
    PickInOrder(events, a, low, sequences, sequences + rest);
  }

  lemma {:induction false} FromElements(events: seq<Event>, a: Aggregate, low: nat)
    ensures forall e :: e in From(events, a, low) <==> e in events && e.aggregate == a && e.sequence >= low
  {
    if events != [] {
      FromElements(events[..|events| - 1], a, low);
      assert events == events[..|events| - 1] + [events[|events| - 1]];
    }
  }

  /** `all` is `sequences` below a bound and everything from there on. */
  predicate Extends(all: set<nat>, sequences: set<nat>, e: Event, low: nat) {
    if e.sequence < low then e.sequence in all <==> e.sequence in sequences
    else e.sequence in all && e.sequence !in sequences
  }

  lemma {:induction false} PickInOrder(events: seq<Event>, a: Aggregate, low: nat, sequences: set<nat>, all: set<nat>)
    requires Increasing(events) && forall e :: e in events && e.aggregate == a ==> Extends(all, sequences, e, low)
    ensures Pick(events, a, all) == Pick(events, a, sequences) + From(events, a, low)
  {
    hide Pick, From, Increasing, Extends;
    if events == [] {
      NoEvents(a, low, 0);
      PickNothing(a, sequences);
      PickNothing(a, all);
    } else {
      var prior, e := events[..|events| - 1], events[|events| - 1];
      assert events == prior + [e];
      assert e in events;
      BeforeLast(events);
      PickInOrder(prior, a, low, sequences, all);
      if e.sequence < low {
        NoneFrom(prior, a, low);
      }
      PickLast(prior, e, a, low, sequences, all);
    }
  }

  lemma PickLast(prior: seq<Event>, e: Event, a: Aggregate, low: nat, sequences: set<nat>, all: set<nat>)
    requires Pick(prior, a, all) == Pick(prior, a, sequences) + From(prior, a, low)
    requires e.sequence < low ==> From(prior, a, low) == []
    requires e.aggregate == a ==> Extends(all, sequences, e, low)
    ensures Pick(prior + [e], a, all) == Pick(prior + [e], a, sequences) + From(prior + [e], a, low)
  {
    hide Pick, From;
    FromAppend(prior, e, a, low);
    PickOne(prior, e, a, sequences);
    PickOne(prior, e, a, all);
  }

  lemma BeforeLast(events: seq<Event>)
    requires Increasing(events) && events != []
    ensures Increasing(events[..|events| - 1])
    ensures forall f :: f in events[..|events| - 1] ==> f.sequence < events[|events| - 1].sequence
  {
  }

  lemma PickNothing(a: Aggregate, sequences: set<nat>)
    ensures Pick([], a, sequences) == []
  {
  }

  /** The fold over events from one sequence on ends at the last of them. */
  lemma {:induction false} FoldEndsAtLast(st: AggregateState, events: seq<Event>, a: Aggregate, low: nat)
    requires Increasing(events) && From(events, a, low) != []
    ensures var last := Fold(st, From(events, a, low)).lastSequence;
      last.Some? && last.value >= low && forall e :: e in From(events, a, low) ==> e.sequence <= last.value
  {
    var prior, e := events[..|events| - 1], events[|events| - 1];
    if e.aggregate == a && e.sequence >= low {
      var all := From(events, a, low);
      assert all[..|all| - 1] == From(prior, a, low);
      FromElements(events, a, low);
      assert forall f :: f in all ==> f in events && f.sequence <= e.sequence;
    } else {
      assert From(events, a, low) == From(prior, a, low);
      FoldEndsAtLast(st, prior, a, low);
    }
  }

  /** A snapshot computed from a partial one holds its events and everything behind it. */
  lemma DraftHolds(s: Store, a: Aggregate, sequences: set<nat>)
    requires Tidy(s) && Replay(s.events, s.snapshots, a).lastSequence.Some?
    requires var latest := Latest(s.snapshots, a);
      && (latest.Some? ==> latest.value.aggregate == a && Holds(s.events, latest.value, sequences))
      && (latest.None? ==> sequences == {})
    ensures Holds(s.events, Draft(s.events, s.snapshots, a),
                  sequences + Sequences(Unsnapshotted(s.events, s.snapshots, a)))
  {
    hide Pick, From, Fold, Latest, Unused;
    var latest, rest := Latest(s.snapshots, a), Unsnapshotted(s.events, s.snapshots, a);
    var low := if latest.Some? then latest.value.sequence + 1 else 0;
    var picked := Pick(s.events, a, sequences);
    PickSplits(s.events, a, low, sequences, Sequences(rest));
    FoldConcat(BLANK, picked, rest);
    if latest.None? {
      PickNobody(s.events, a);
      FoldNothing(BLANK);
    }
    FoldForgets(Start(latest), Fold(BLANK, picked), rest);
    FromElements(s.events, a, low);
    if rest == [] {
      FoldNothing(Start(latest));
    } else {
      FoldEndsAtLast(Start(latest), s.events, a, low);
    }
    forall q | q in Sequences(rest) ensures !Unused(s.events, q) {
      UsedByVisible(s.events, rest, q);
    }
  }

  lemma {:induction false} PickNobody(events: seq<Event>, a: Aggregate)
    ensures Pick(events, a, {}) == []
  {
    if events != [] {
      PickNobody(events[..|events| - 1], a);
    }
  }

  lemma UsedByVisible(events: seq<Event>, rest: seq<Event>, q: nat)
    requires q in Sequences(rest) && forall e :: e in rest ==> e in events
    ensures !Unused(events, q)
  {
  }

  lemma DraftIsPartial(s: Store, a: Aggregate)
    requires Reachable(s) && Replay(s.events, s.snapshots, a).lastSequence.Some?
    ensures Partial(s.events, Draft(s.events, s.snapshots, a))
  {
    hide Holds, Replay, Tidy, Latest;
    var latest := Latest(s.snapshots, a);
    LatestIsStored(s.snapshots, a);
    var sequences := {};
    if latest.Some? {
      assert Partial(s.events, latest.value);
      sequences :| Holds(s.events, latest.value, sequences);
    }
    DraftHolds(s, a, sequences);
  }

  lemma {:induction false} PickEndsAt(events: seq<Event>, a: Aggregate, sequences: set<nat>, counter: nat)
    requires forall e :: e in events ==> e.sequence <= counter
    ensures var last := Fold(BLANK, Pick(events, a, sequences)).lastSequence;
      last.Some? ==> last.value <= counter
  {
    if events != [] {
      var prior, e := events[..|events| - 1], events[|events| - 1];
      assert e in events;
      PickEndsAt(prior, a, sequences, counter);
      if e.aggregate == a && e.sequence in sequences {
        assert Pick(events, a, sequences)[..|Pick(events, a, sequences)| - 1] == Pick(prior, a, sequences);
      } else {
        assert Pick(events, a, sequences) == Pick(prior, a, sequences);
      }
    }
  }

  lemma PartialEndsAt(events: seq<Event>, x: Snapshot, counter: nat)
    requires Partial(events, x) && forall e :: e in events ==> e.sequence <= counter
    ensures x.sequence <= counter
  {
    hide Fold, Pick, Unused;
    var sequences :| Holds(events, x, sequences);
    PickEndsAt(events, x.aggregate, sequences, counter);
  }

  lemma ComputeKeepsReachable(s: Store, step: Step)
    requires Reachable(s) && step.Compute?
    ensures Reachable(Next(s, step))
  {
    hide Replay, Draft, Partial, Increasing, Unused;
    if Replay(s.events, s.snapshots, step.aggregate).lastSequence.Some? {
      DraftIsPartial(s, step.aggregate);
      PartialEndsAt(s.events, Draft(s.events, s.snapshots, step.aggregate), s.counter);
    }
  }

  lemma AppendKeepsReachable(s: Store, step: Step)
    requires Reachable(s) && step.Append?
    ensures Reachable(Next(s, step))
  {
    hide Partial, Insert;
    var t := Next(s, step);
    var e := t.events[|t.events| - 1];
    AppendKeepsTidy(s, step);
    AppendIsInsert(s.events, e);
    forall x | x in t.snapshots || x in t.drafts ensures Partial(t.events, x) {
      InsertKeepsPartial(s.events, e, x);
    }
  }

  lemma PublishKeepsReachable(s: Store, i: nat)
    requires Reachable(s) && i < |s.pending|
    ensures Reachable(Next(s, Publish(i)))
  {
    hide Partial, Insert, Unused;
    PublishKeepsTidy(s, i);
    assert s.pending[i] in s.pending;
    forall x | x in s.snapshots || x in s.drafts ensures Partial(Insert(s.events, s.pending[i]), x) {
      InsertKeepsPartial(s.events, s.pending[i], x);
    }
  }

  lemma OtherStepKeepsReachable(s: Store, step: Step)
    requires Reachable(s) && (step.Reserve? || step.Abort? || step.Save? || step.Fail?)
    ensures Reachable(Next(s, step))
  {
    hide Partial, Tidy;
    if step.Reserve? {
      ReserveKeepsTidy(s, step);
    } else if step.Abort? {
      if step.insert < |s.pending| {
        AbortKeepsTidy(s, step.insert);
      }
    } else {
      DraftStepKeepsTidy(s, step);
      if step.draft < |s.drafts| {
        WithoutElements(s.drafts, step.draft);
      }
    }
  }

  lemma StepKeepsReachable(s: Store, step: Step)
    requires Reachable(s)
    ensures Reachable(Next(s, step))
  {
    hide Reachable, Replay, Draft, Insert;
    match step
    case Append(_, _, _, _, _) => AppendKeepsReachable(s, step);
    case Compute(_) => ComputeKeepsReachable(s, step);
    case Publish(i) =>
      if i < |s.pending| {
        PublishKeepsReachable(s, i);
      }
    case _ => OtherStepKeepsReachable(s, step);
  }

  lemma {:induction false} RunKeepsReachable(s: Store, steps: seq<Step>)
    requires Reachable(s)
    ensures Reachable(Run(s, steps))
  {
    hide Next, Reachable;
    if steps != [] {
      RunKeepsReachable(s, steps[..|steps| - 1]);
      StepKeepsReachable(Run(s, steps[..|steps| - 1]), steps[|steps| - 1]);
    }
  }

  // ---- How much a snapshot misses ----

  /** What is picked up to a sequence is all there is up to it, or less. */
  lemma {:induction false} PickedUpTo(events: seq<Event>, a: Aggregate, sequences: set<nat>, high: nat)
    requires forall q :: q in sequences ==> q <= high
    ensures |Pick(events, a, sequences)| <= |UpTo(events, a, high)|
    ensures |Pick(events, a, sequences)| == |UpTo(events, a, high)| ==>
              Pick(events, a, sequences) == UpTo(events, a, high)
  {
    hide Pick, UpTo;
    if events == [] {
      PickNothing(a, sequences);
      NoEvents(a, 0, high);
    } else {
      var prior, e := events[..|events| - 1], events[|events| - 1];
      assert events == prior + [e];
      PickedUpTo(prior, a, sequences, high);
      PickOne(prior, e, a, sequences);
      UpToOne(prior, e, a, high);
    }
  }

  /** The visible events up to its sequence that a snapshot does not count. */
  function Missed(events: seq<Event>, x: Snapshot): int {
    |UpTo(events, x.aggregate, x.sequence)| - x.version
  }

  /** A snapshot holds what it should exactly when its version counts every visible event up
      to its sequence, which anyone can check by counting rows. */
  lemma FaithfulIffCounted(events: seq<Event>, x: Snapshot)
    requires Partial(events, x)
    ensures Missed(events, x) >= 0
    ensures Faithful(events, x) <==> Missed(events, x) == 0
  {
    hide Fold, Pick, UpTo, Unused;
    var sequences :| Holds(events, x, sequences);
    PickedUpTo(events, x.aggregate, sequences, x.sequence);
    FoldCounts(BLANK, Pick(events, x.aggregate, sequences));
    FoldCounts(BLANK, UpTo(events, x.aggregate, x.sequence));
  }

  /** What replaying from the latest snapshot misses. */
  function MissedByReplay(s: Store, a: Aggregate): int {
    var latest := Latest(s.snapshots, a);
    if latest.Some? then Missed(s.events, latest.value) else 0
  }

  lemma LatestIsPartial(s: Store, a: Aggregate)
    requires Reachable(s) && Latest(s.snapshots, a).Some?
    ensures Partial(s.events, Latest(s.snapshots, a).value) && Latest(s.snapshots, a).value.aggregate == a
    ensures Increasing(s.events)
  {
    hide Partial;
    LatestIsStored(s.snapshots, a);
  }

  /** The version of a replay falls short of the full fold by the events its snapshot missed;
      version, last sequence and state agree with the full fold exactly when there are none. */
  lemma ReplayAgreesIff(s: Store, a: Aggregate)
    requires Reachable(s)
    ensures FullFold(s.events, a).version - Replay(s.events, s.snapshots, a).version == MissedByReplay(s, a) >= 0
    ensures SameCore(Replay(s.events, s.snapshots, a), FullFold(s.events, a)) <==> MissedByReplay(s, a) == 0
  {
    hide Reachable, Partial, Fold, From, UpTo, Latest;
    var latest, rest := Latest(s.snapshots, a), Unsnapshotted(s.events, s.snapshots, a);
    if latest.Some? {
      LatestIsPartial(s, a);
      var prefix := UpTo(s.events, a, latest.value.sequence);
      FaithfulIffCounted(s.events, latest.value);
      HistorySplits(s.events, a, latest.value.sequence);
      FoldCounts(Start(latest), rest);
      FoldCounts(BLANK, prefix + rest);
      if Faithful(s.events, latest.value) {
        FoldConcat(BLANK, prefix, rest);
        FoldForgets(Start(latest), Fold(BLANK, prefix), rest);
      }
    }
  }

  /** Every history of overlapping inserts and of snapshots computed, saved late, saved twice
      or lost: replay agrees with the full fold if and only if the version of the latest
      snapshot counts every visible event up to its sequence, and otherwise falls short by
      exactly the events it does not count. */
  lemma ReplayAgreesInEveryRunIff(s: Store, steps: seq<Step>, a: Aggregate)
    requires Empty(s)
    ensures var t := Run(s, steps);
      && FullFold(t.events, a).version - Replay(t.events, t.snapshots, a).version == MissedByReplay(t, a) >= 0
      && (SameCore(Replay(t.events, t.snapshots, a), FullFold(t.events, a)) <==> MissedByReplay(t, a) == 0)
  {
    hide Run, Replay, FullFold, MissedByReplay;
    EmptyIsReachable(s);
    RunKeepsReachable(s, steps);
    ReplayAgreesIff(Run(s, steps), a);
  }

  lemma EmptyIsReachable(s: Store)
    requires Empty(s)
    ensures Reachable(s)
  {
  }

  // ---- Events that come too late ----

  /** An event that becomes visible behind the latest snapshot of its aggregate is missed,
      and only such an event is. */
  lemma PublishIsMissedIff(s: Store, i: nat, a: Aggregate)
    requires Reachable(s) && i < |s.pending|
    ensures var latest, e := Latest(s.snapshots, a), s.pending[i];
      MissedByReplay(Next(s, Publish(i)), a)
      == MissedByReplay(s, a)
         + if e.aggregate == a && latest.Some? && e.sequence <= latest.value.sequence then 1 else 0
  {
    hide Reachable, Insert, UpTo, Latest;
    LatestIsStored(s.snapshots, a);
    if Latest(s.snapshots, a).Some? {
      InsertedUpTo(s.events, s.pending[i], a, Latest(s.snapshots, a).value.sequence);
    }
  }

  /** An insert that is overtaken by any number of appends to the same aggregate. */
  function Overtaken(a: Aggregate, n: nat): seq<Step> {
    if n == 0 then [Reserve(a, "", map[], 0, 0)] else Overtaken(a, n - 1) + [Append(a, "", map[], 0, 0)]
  }

  /** A snapshot is taken, and only then the insert commits. */
  function Snapshotted(a: Aggregate): seq<Step> {
    [Compute(a), Save(0)]
  }

  const LATE_COMMIT: seq<Step> := [Publish(0)]

  ghost predicate Waiting(u: Store, a: Aggregate, n: nat) {
    && Sound(u) && u.snapshots == [] && u.drafts == [] && |u.pending| == 1 && u.pending[0].aggregate == a
    && |From(u.events, a, 0)| == n && forall e :: e in u.events ==> e.sequence > u.pending[0].sequence
  }

  lemma RunThen(s: Store, steps: seq<Step>, step: Step)
    ensures Run(s, steps + [step]) == Next(Run(s, steps), step)
  {
    hide Next;
    assert (steps + [step])[..|steps|] == steps;
  }

  lemma {:induction false} OvertakenWaits(s: Store, a: Aggregate, n: nat)
    requires Empty(s)
    ensures Waiting(Run(s, Overtaken(a, n)), a, n)
  {
    hide Run, Next, Waiting;
    if n == 0 {
      assert [] + [Reserve(a, "", map[], 0, 0)] == Overtaken(a, 0);
      RunThen(s, [], Reserve(a, "", map[], 0, 0));
      RunNothing(s);
      ReserveWaits(s, a);
    } else {
      OvertakenWaits(s, a, n - 1);
      var u := Run(s, Overtaken(a, n - 1));
      RunThen(s, Overtaken(a, n - 1), Append(a, "", map[], 0, 0));
      AppendKeepsWaiting(u, a, n - 1);
    }
  }

  lemma AppendKeepsWaiting(u: Store, a: Aggregate, n: nat)
    requires Waiting(u, a, n)
    ensures Waiting(Next(u, Append(a, "", map[], 0, 0)), a, n + 1)
  {
    hide Sound, From;
    AppendKeepsSound(u, Append(a, "", map[], 0, 0));
    FromAppend(u.events, Event(a, "", map[], u.counter + 1, 0), a, 0);
    PendingBehindCounter(u);
  }

  lemma PendingBehindCounter(u: Store)
    requires Sound(u)
    ensures forall i :: 0 <= i < |u.pending| ==> u.pending[i].sequence <= u.counter
  {
    hide Faithful;
    assert forall i :: 0 <= i < |u.pending| ==> u.pending[i] in u.pending;
  }

  lemma ReserveWaits(s: Store, a: Aggregate)
    requires Empty(s)
    ensures Waiting(Next(s, Reserve(a, "", map[], 0, 0)), a, 0)
  {
  }

  lemma RunNothing(s: Store)
    ensures Run(s, []) == s
  {
  }

  /** The snapshot comes past the waiting insert and misses nothing that is visible. */
  lemma SnapshotPasses(u: Store, a: Aggregate, n: nat)
    requires Waiting(u, a, n) && n >= 1
    ensures var t := Next(Next(u, Compute(a)), Save(0));
      && Sound(t) && t.events == u.events && t.pending == u.pending
      && Latest(t.snapshots, a).Some? && Latest(t.snapshots, a).value.sequence > u.pending[0].sequence
  {
    hide Faithful, Fold, From, Tidy;
    FoldEndsAtLast(BLANK, u.events, a, 0) by { assert Increasing(u.events) by { SoundIsIncreasing(u); } }
    FromElements(u.events, a, 0);
    assert From(u.events, a, 0)[0] in From(u.events, a, 0);
    StepKeepsSoundIff(u, Compute(a));
    StepKeepsSoundIff(Next(u, Compute(a)), Save(0));
  }

  lemma SoundMissesNothing(s: Store, a: Aggregate)
    requires Sound(s) && Reachable(s)
    ensures MissedByReplay(s, a) == 0
  {
    hide Sound, Reachable, MissedByReplay, Replay;
    ReplayIsFullFold(s, a);
    ReplayAgreesIff(s, a);
  }

  /** From the empty store, for every number of appends that overtake an insert: once a
      snapshot has been taken before the insert commits, replaying from it misses the event
      and the version is one short. */
  lemma LateEventIsMissed(s: Store, a: Aggregate, n: nat)
    requires Empty(s) && n >= 1
    ensures var t := Run(s, Overtaken(a, n) + Snapshotted(a) + LATE_COMMIT);
      && FullFold(t.events, a).version == Replay(t.events, t.snapshots, a).version + 1
      && !SameCore(Replay(t.events, t.snapshots, a), FullFold(t.events, a))
  {
    hide Run, Next, Sound, Reachable, MissedByReplay, Replay, FullFold, Latest;
    var u := Run(s, Overtaken(a, n));
    OvertakenWaits(s, a, n);
    SnapshotPasses(u, a, n);
    RunThen(s, Overtaken(a, n), Compute(a));
    RunThen(s, Overtaken(a, n) + [Compute(a)], Save(0));
    assert Overtaken(a, n) + [Compute(a)] + [Save(0)] == Overtaken(a, n) + Snapshotted(a);
    var before := Run(s, Overtaken(a, n) + Snapshotted(a));
    RunThen(s, Overtaken(a, n) + Snapshotted(a), Publish(0));
    EmptyIsReachable(s);
    RunKeepsReachable(s, Overtaken(a, n) + Snapshotted(a));
    SoundMissesNothing(before, a);
    PublishIsMissedIff(before, 0, a);
    RunKeepsReachable(s, Overtaken(a, n) + Snapshotted(a) + LATE_COMMIT);
    ReplayAgreesIff(Run(s, Overtaken(a, n) + Snapshotted(a) + LATE_COMMIT), a);
  }
}
