/** The event store: an append-only table of events, and snapshots from which an
    aggregate is replayed without reading its whole history. */
module EventStore {
  import opened Basics

  const SNAPSHOT_INTERVAL: nat := 20

  datatype Aggregate = Aggregate(aggregateType: string, aggregateId: string)

  type Payload = map<string, string>

  datatype Event = Event(aggregate: Aggregate, eventType: string, payload: Payload, sequence: nat, createdAt: nat)

  datatype Snapshot = Snapshot(aggregate: Aggregate, sequence: nat, version: nat, state: Payload)

  datatype AggregateState = AggregateState(version: nat, lastSequence: Option<nat>, lastEventType: Option<string>,
                                           lastEventAt: Option<nat>, state: Payload)

  const BLANK := AggregateState(0, None, None, None, map[])

  /** The effect of one event: later keys override earlier ones. */
  function Apply(st: AggregateState, e: Event): AggregateState {
    AggregateState(st.version + 1, Some(e.sequence), Some(e.eventType), Some(e.createdAt), st.state + e.payload)
  }

  function Fold(st: AggregateState, events: seq<Event>): AggregateState {
    if events == [] then st else Apply(Fold(st, events[..|events| - 1]), events[|events| - 1])
  }

  /** The aggregate's events with sequence `low` or higher, oldest first. */
  function From(events: seq<Event>, a: Aggregate, low: nat): seq<Event> {
    if events == [] then []
    else
      var e := events[|events| - 1];
      From(events[..|events| - 1], a, low) + if e.aggregate == a && e.sequence >= low then [e] else []
  }

  /** The aggregate's events up to and including a sequence. */
  function UpTo(events: seq<Event>, a: Aggregate, high: nat): seq<Event> {
    if events == [] then []
    else
      var e := events[|events| - 1];
      UpTo(events[..|events| - 1], a, high) + if e.aggregate == a && e.sequence <= high then [e] else []
  }

  /** The aggregate's snapshot with the highest sequence. */
  function Latest(snapshots: seq<Snapshot>, a: Aggregate): Option<Snapshot> {
    if snapshots == [] then None
    else
      var s, rest := snapshots[|snapshots| - 1], Latest(snapshots[..|snapshots| - 1], a);
      if s.aggregate == a && (rest.None? || rest.value.sequence < s.sequence) then Some(s) else rest
  }

  function Unsnapshotted(events: seq<Event>, snapshots: seq<Snapshot>, a: Aggregate): seq<Event> {
    var snapshot := Latest(snapshots, a);
    From(events, a, if snapshot.Some? then snapshot.value.sequence + 1 else 0)
  }

  function Start(snapshot: Option<Snapshot>): AggregateState {
    match snapshot
    case None => BLANK
    case Some(s) => AggregateState(s.version, Some(s.sequence), None, None, s.state)
  }

  function Replay(events: seq<Event>, snapshots: seq<Snapshot>, a: Aggregate): AggregateState {
    Fold(Start(Latest(snapshots, a)), Unsnapshotted(events, snapshots, a))
  }

  /** The reference: everything from the beginning of history. */
  function FullFold(events: seq<Event>, a: Aggregate): AggregateState {
    Fold(BLANK, From(events, a, 0))
  }

  function Draft(events: seq<Event>, snapshots: seq<Snapshot>, a: Aggregate): (draft: Snapshot)
    requires Replay(events, snapshots, a).lastSequence.Some?
    ensures draft.aggregate == a
  {
    var r := Replay(events, snapshots, a);
    Snapshot(a, r.lastSequence.value, r.version, r.state)
  }

  // ---- Histories ----

  /** The visible events in the order of their sequences, the saved snapshots, the sequence
      counter, the snapshots that some process has computed but not yet saved, and the
      events that have a sequence but are not visible yet. */
  datatype Store = Store(events: seq<Event>, snapshots: seq<Snapshot>, counter: nat, drafts: seq<Snapshot>,
                         pending: seq<Event>)

  datatype Step =
    | Append(aggregate: Aggregate, eventType: string, payload: Payload, createdAt: nat, gap: nat)
    | Reserve(aggregate: Aggregate, eventType: string, payload: Payload, createdAt: nat, gap: nat)
    | Publish(insert: nat)
    | Abort(insert: nat)
    | Compute(aggregate: Aggregate)
    | Save(draft: nat)
    | Fail(draft: nat)

  /** The event at its place in the order of sequences. */
  function Insert(events: seq<Event>, e: Event): seq<Event> {
    if events == [] || events[|events| - 1].sequence < e.sequence then events + [e]
    else Insert(events[..|events| - 1], e) + [events[|events| - 1]]
  }

  function Without<T>(s: seq<T>, i: nat): seq<T>
    requires i < |s|
  {
    s[..i] + s[i + 1..]
  }

  /** One atomic step. An insert takes its sequence from the counter when it starts and
      becomes visible when it commits, so inserts may overtake each other; appending is an
      insert that none overtakes. The counter may skip numbers; a draft may be saved late
      or never. */
  function Next(s: Store, step: Step): Store {
    match step
    case Append(a, eventType, payload, createdAt, gap) =>
      var sequence := s.counter + 1 + gap;
      s.(events := s.events + [Event(a, eventType, payload, sequence, createdAt)], counter := sequence)
    case Reserve(a, eventType, payload, createdAt, gap) =>
      var sequence := s.counter + 1 + gap;
      s.(pending := s.pending + [Event(a, eventType, payload, sequence, createdAt)], counter := sequence)
    case Publish(i) =>
      if i < |s.pending|
      then s.(events := Insert(s.events, s.pending[i]), pending := Without(s.pending, i)) else s
    case Abort(i) => if i < |s.pending| then s.(pending := Without(s.pending, i)) else s
    case Compute(a) =>
      if Replay(s.events, s.snapshots, a).lastSequence.Some?
      then s.(drafts := s.drafts + [Draft(s.events, s.snapshots, a)]) else s
    case Save(i) =>
      if i < |s.drafts|
      then s.(snapshots := s.snapshots + [s.drafts[i]], drafts := Without(s.drafts, i)) else s
    case Fail(i) => if i < |s.drafts| then s.(drafts := Without(s.drafts, i)) else s
  }

  function Run(s: Store, steps: seq<Step>): Store {
    if steps == [] then s else Next(Run(s, steps[..|steps| - 1]), steps[|steps| - 1])
  }

  predicate Empty(s: Store) {
    s.events == [] && s.snapshots == [] && s.drafts == [] && s.pending == []
  }
}

/** Replaying from a snapshot against folding everything. */
module EventStoreRuns {
  import opened Basics
  import opened EventStore

  predicate Increasing(events: seq<Event>) {
    forall i, j :: 0 <= i < j < |events| ==> events[i].sequence < events[j].sequence
  }

  /** A snapshot holds what folding the aggregate's events up to its sequence gives. */
  predicate Faithful(events: seq<Event>, s: Snapshot) {
    var f := Fold(BLANK, UpTo(events, s.aggregate, s.sequence));
    f.version == s.version && f.state == s.state && f.lastSequence == Some(s.sequence)
  }

  /** No visible event has this sequence. */
  predicate Unused(events: seq<Event>, sequence: nat) {
    forall e :: e in events ==> e.sequence != sequence
  }

  /** Sequences come from the counter, each for one event. */
  ghost predicate Tidy(s: Store) {
    && Increasing(s.events)
    && (forall e :: e in s.events ==> e.sequence <= s.counter)
    && (forall e :: e in s.pending ==> e.sequence <= s.counter && Unused(s.events, e.sequence))
    && (forall i, j :: 0 <= i < j < |s.pending| ==> s.pending[i].sequence != s.pending[j].sequence)
    && (forall x :: x in s.snapshots || x in s.drafts ==> x.sequence <= s.counter)
  }

  /** All snapshots, saved or not, hold what they should. */
  ghost predicate Sound(s: Store) {
    Tidy(s) && forall x :: x in s.snapshots || x in s.drafts ==> Faithful(s.events, x)
  }

  lemma {:induction false} FoldConcat(st: AggregateState, x: seq<Event>, y: seq<Event>)
    ensures Fold(st, x + y) == Fold(Fold(st, x), y)
  {
    if y == [] {
      assert x + y == x;
    } else {
      FoldConcat(st, x, y[..|y| - 1]);
      assert (x + y)[..|x + y| - 1] == x + y[..|y| - 1];
    }
  }

  predicate SameCore(x: AggregateState, y: AggregateState) {
    x.version == y.version && x.lastSequence == y.lastSequence && x.state == y.state
  }

  /** What the last event was is forgotten with the next event. */
  lemma {:induction false} FoldForgets(x: AggregateState, y: AggregateState, events: seq<Event>)
    requires SameCore(x, y)
    ensures SameCore(Fold(x, events), Fold(y, events)) && (events != [] ==> Fold(x, events) == Fold(y, events))
  {
    if events != [] {
      FoldForgets(x, y, events[..|events| - 1]);
    }
  }

  /** Ordered by sequence, the history of an aggregate is its beginning up to any
      sequence followed by the rest. */
  lemma {:induction false} HistorySplits(events: seq<Event>, a: Aggregate, high: nat)
    requires Increasing(events)
    ensures From(events, a, 0) == UpTo(events, a, high) + From(events, a, high + 1)
  {
    hide From, UpTo;
    if events == [] {
      NoEvents(a, 0, high);
      NoEvents(a, high + 1, high);
    } else {
      var prior, e := events[..|events| - 1], events[|events| - 1];
      HistorySplits(prior, a, high);
      LastEvent(events, a, 0, high);
      LastEvent(events, a, high + 1, high);
      if e.sequence <= high {
        NoneFrom(prior, a, high + 1);
        assert UpTo(prior, a, high) + [] == UpTo(prior, a, high);
      }
    }
  }

  lemma NoEvents(a: Aggregate, low: nat, high: nat)
    ensures From([], a, low) == [] && UpTo([], a, high) == []
  {
  }

  lemma LastEvent(events: seq<Event>, a: Aggregate, low: nat, high: nat)
    requires events != []
    ensures var prior, e := events[..|events| - 1], events[|events| - 1];
      && From(events, a, low) == From(prior, a, low) + (if e.aggregate == a && e.sequence >= low then [e] else [])
      && UpTo(events, a, high) == UpTo(prior, a, high) + if e.aggregate == a && e.sequence <= high then [e] else []
  {
  }

  lemma {:induction false} NoneFrom(events: seq<Event>, a: Aggregate, low: nat)
    requires forall e :: e in events ==> e.sequence < low
    ensures From(events, a, low) == []
  {
    if events != [] {
      assert events[|events| - 1] in events;
      NoneFrom(events[..|events| - 1], a, low);
    }
  }

  lemma {:induction false} AllUpTo(events: seq<Event>, a: Aggregate, high: nat)
    requires forall e :: e in events ==> e.sequence <= high
    ensures UpTo(events, a, high) == From(events, a, 0)
  {
    if events != [] {
      assert events[|events| - 1] in events;
      AllUpTo(events[..|events| - 1], a, high);
    }
  }

  lemma {:induction false} LatestIsStored(snapshots: seq<Snapshot>, a: Aggregate)
    ensures Latest(snapshots, a).Some?
            ==> Latest(snapshots, a).value in snapshots && Latest(snapshots, a).value.aggregate == a
  {
    if snapshots != [] {
      LatestIsStored(snapshots[..|snapshots| - 1], a);
    }
  }

  /** In a sound store, replaying from the latest snapshot gives the same version, last
      sequence and state as folding everything; it is the same in every respect exactly
      when there is no snapshot or something was appended after it. */
  lemma ReplayIsFullFold(s: Store, a: Aggregate)
    requires Sound(s)
    ensures SameCore(Replay(s.events, s.snapshots, a), FullFold(s.events, a))
    ensures Replay(s.events, s.snapshots, a) == FullFold(s.events, a)
            <==> Latest(s.snapshots, a).None? || Unsnapshotted(s.events, s.snapshots, a) != []
  {
    hide Sound, Faithful, Fold, From, UpTo, Latest;
    var latest := Latest(s.snapshots, a);
    LatestIsStored(s.snapshots, a);
    if latest.Some? {
      var start, rest := latest.value, Unsnapshotted(s.events, s.snapshots, a);
      var prefix := UpTo(s.events, a, start.sequence);
      SoundSnapshot(s, start);
      HistorySplits(s.events, a, start.sequence);
      FoldConcat(BLANK, prefix, rest);
      FoldForgets(Start(latest), Fold(BLANK, prefix), rest);
      if rest == [] {
        FoldNothing(Start(latest));
        FoldNothing(Fold(BLANK, prefix));
        FoldKnowsTheLast(prefix);
      }
    }
  }

  lemma FoldNothing(st: AggregateState)
    ensures Fold(st, []) == st
  {
  }

  lemma FoldKnowsTheLast(events: seq<Event>)
    ensures Fold(BLANK, events).lastSequence.Some? ==> Fold(BLANK, events).lastEventType.Some?
  {
  }

  lemma SoundSnapshot(s: Store, x: Snapshot)
    requires Sound(s) && x in s.snapshots
    ensures Faithful(s.events, x) && Increasing(s.events)
    ensures var f := Fold(BLANK, UpTo(s.events, x.aggregate, x.sequence));
      SameCore(Start(Some(x)), f)
  {
  }

  // ---- Inserting an event ----

  lemma {:induction false} InsertedElements(events: seq<Event>, e: Event)
    ensures forall f :: f in Insert(events, e) <==> f in events || f == e
    ensures |Insert(events, e)| == |events| + 1
  {
    if events != [] && events[|events| - 1].sequence >= e.sequence {
      var prior, last := events[..|events| - 1], events[|events| - 1];
      InsertedElements(prior, e);
      assert events == prior + [last];
    }
  }

  lemma {:induction false} InsertKeepsOrder(events: seq<Event>, e: Event)
    requires Increasing(events) && Unused(events, e.sequence)
    ensures Increasing(Insert(events, e))
  {
    if events != [] && events[|events| - 1].sequence >= e.sequence {
      var prior, last := events[..|events| - 1], events[|events| - 1];
      assert last in events;
      InsertKeepsOrder(prior, e);
      InsertedElements(prior, e);
      var inserted := Insert(prior, e);
      forall i | 0 <= i < |inserted| ensures inserted[i].sequence < last.sequence {
        assert inserted[i] in inserted;
      }
    }
  }

  lemma UpToOne(prior: seq<Event>, e: Event, a: Aggregate, high: nat)
    ensures UpTo(prior + [e], a, high)
            == UpTo(prior, a, high) + if e.aggregate == a && e.sequence <= high then [e] else []
  {
    assert (prior + [e])[..|prior|] == prior;
  }

  /** An event behind a sequence is one more up to it; any other event makes no difference. */
  lemma {:induction false} InsertedUpTo(events: seq<Event>, e: Event, a: Aggregate, high: nat)
    ensures e.aggregate == a && e.sequence <= high
            ==> |UpTo(Insert(events, e), a, high)| == |UpTo(events, a, high)| + 1
    ensures e.aggregate != a || e.sequence > high ==> UpTo(Insert(events, e), a, high) == UpTo(events, a, high)
  {
    hide UpTo;
    if events == [] || events[|events| - 1].sequence < e.sequence {
      UpToOne(events, e, a, high);
    } else {
      var prior, last := events[..|events| - 1], events[|events| - 1];
      InsertedUpTo(prior, e, a, high);
      UpToOne(prior, last, a, high);
      UpToOne(Insert(prior, e), last, a, high);
      assert prior + [last] == events;
    }
  }

  // ---- Which histories are sound ----

  lemma AppendIsInsert(events: seq<Event>, e: Event)
    requires forall f :: f in events ==> f.sequence < e.sequence
    ensures Insert(events, e) == events + [e]
  {
    if events != [] {
      assert events[|events| - 1] in events;
    }
  }

  /** What every step keeps of the order of events. */
  lemma AppendKeepsTidy(s: Store, step: Step)
    requires Tidy(s) && step.Append?
    ensures Tidy(Next(s, step))
  {
  }

  lemma ReserveKeepsTidy(s: Store, step: Step)
    requires Tidy(s) && step.Reserve?
    ensures Tidy(Next(s, step))
  {
  }

  lemma WithoutElements<T>(s: seq<T>, i: nat)
    requires i < |s|
    ensures forall x :: x in Without(s, i) ==> x in s
  {
  }

  lemma PublishKeepsTidy(s: Store, i: nat)
    requires Tidy(s) && i < |s.pending|
    ensures Tidy(Next(s, Publish(i)))
  {
    hide Insert;
    var e, t := s.pending[i], Next(s, Publish(i));
    assert e in s.pending;
    InsertKeepsOrder(s.events, e);
    InsertedElements(s.events, e);
    WithoutElements(s.pending, i);
    forall f | f in t.pending ensures Unused(t.events, f.sequence) {
      var j :| 0 <= j < |t.pending| && t.pending[j] == f;
      assert f == s.pending[if j < i then j else j + 1];
    }
  }

  lemma AbortKeepsTidy(s: Store, i: nat)
    requires Tidy(s) && i < |s.pending|
    ensures Tidy(Next(s, Abort(i)))
  {
    WithoutElements(s.pending, i);
  }

  lemma DraftStepKeepsTidy(s: Store, step: Step)
    requires Tidy(s) && (step.Save? || step.Fail?)
    ensures Tidy(Next(s, step))
  {
    if step.draft < |s.drafts| {
      WithoutElements(s.drafts, step.draft);
    }
  }

  lemma InsertKeepsFaithfulIff(events: seq<Event>, e: Event, x: Snapshot)
    requires Faithful(events, x)
    ensures Faithful(Insert(events, e), x) <==> e.aggregate != x.aggregate || e.sequence > x.sequence
  {
    hide Fold, Insert, UpTo;
    InsertedUpTo(events, e, x.aggregate, x.sequence);
    FoldCounts(BLANK, UpTo(events, x.aggregate, x.sequence));
    FoldCounts(BLANK, UpTo(Insert(events, e), x.aggregate, x.sequence));
  }

  lemma {:induction false} FoldCounts(st: AggregateState, events: seq<Event>)
    ensures Fold(st, events).version == st.version + |events|
  {
    if events != [] {
      FoldCounts(st, events[..|events| - 1]);
    }
  }

  lemma AppendKeepsSound(s: Store, step: Step)
    requires Sound(s) && step.Append?
    ensures Sound(Next(s, step))
  {
    hide Faithful, Insert;
    var t := Next(s, step);
    var e := t.events[|t.events| - 1];
    AppendKeepsTidy(s, step);
    AppendIsInsert(s.events, e);
    forall x | x in t.snapshots || x in t.drafts ensures Faithful(t.events, x) {
      InsertKeepsFaithfulIff(s.events, e, x);
    }
  }

  /** No snapshot of the aggregate, saved or not, has come past the event that is about to
      become visible. */
  ghost predicate Timely(s: Store, step: Step) {
    step.Publish? && step.insert < |s.pending| ==>
      var e := s.pending[step.insert];
      forall x :: (x in s.snapshots || x in s.drafts) && x.aggregate == e.aggregate ==> x.sequence < e.sequence
  }

  lemma PublishKeepsSoundIff(s: Store, i: nat)
    requires Sound(s) && i < |s.pending|
    ensures Sound(Next(s, Publish(i))) <==> Timely(s, Publish(i))
  {
    hide Faithful, Insert, Tidy;
    PublishKeepsTidy(s, i);
    forall x | x in s.snapshots || x in s.drafts
      ensures Faithful(Insert(s.events, s.pending[i]), x)
              <==> s.pending[i].aggregate != x.aggregate || s.pending[i].sequence > x.sequence
    {
      InsertKeepsFaithfulIff(s.events, s.pending[i], x);
    }
  }

  lemma {:induction false} FoldEndsAt(events: seq<Event>, a: Aggregate, counter: nat)
    requires forall e :: e in events ==> e.sequence <= counter
    ensures var last := Fold(BLANK, From(events, a, 0)).lastSequence;
      last.Some? ==> last.value <= counter
  {
    if events != [] {
      var prior, e := events[..|events| - 1], events[|events| - 1];
      assert e in events;
      FoldEndsAt(prior, a, counter);
      if e.aggregate == a {
        assert From(events, a, 0)[..|From(events, a, 0)| - 1] == From(prior, a, 0);
      } else {
        assert From(events, a, 0) == From(prior, a, 0);
      }
    }
  }

  /** The fold up to the last sequence folded is the whole fold. */
  lemma {:induction false} FoldUpToItsEnd(events: seq<Event>, a: Aggregate)
    requires Increasing(events)
    ensures var last := Fold(BLANK, From(events, a, 0)).lastSequence;
      last.Some? ==> UpTo(events, a, last.value) == From(events, a, 0)
  {
    if events != [] {
      var prior, e := events[..|events| - 1], events[|events| - 1];
      FoldUpToItsEnd(prior, a);
      if e.aggregate == a {
        assert From(events, a, 0)[..|From(events, a, 0)| - 1] == From(prior, a, 0);
        AllUpTo(prior, a, e.sequence);
      } else {
        assert From(events, a, 0) == From(prior, a, 0);
      }
    }
  }

  lemma DraftIsFaithful(s: Store, a: Aggregate)
    requires Sound(s) && Replay(s.events, s.snapshots, a).lastSequence.Some?
    ensures Faithful(s.events, Draft(s.events, s.snapshots, a))
    ensures Draft(s.events, s.snapshots, a).sequence <= s.counter
  {
    hide Replay, Fold, From, UpTo, Faithful;
    ReplayIsFullFold(s, a);
    FoldUpToItsEnd(s.events, a);
    FoldEndsAt(s.events, a, s.counter);
    FaithfulBy(s.events, Draft(s.events, s.snapshots, a));
  }

  lemma FaithfulBy(events: seq<Event>, x: Snapshot)
    requires SameCore(AggregateState(x.version, Some(x.sequence), None, None, x.state),
                      Fold(BLANK, UpTo(events, x.aggregate, x.sequence)))
    ensures Faithful(events, x)
  {
  }

  lemma ComputeKeepsSound(s: Store, step: Step)
    requires Sound(s) && step.Compute?
    ensures Sound(Next(s, step))
  {
    hide Faithful, Replay;
    if Replay(s.events, s.snapshots, step.aggregate).lastSequence.Some? {
      DraftIsFaithful(s, step.aggregate);
    }
  }

  lemma OtherStepKeepsSound(s: Store, step: Step)
    requires Sound(s) && (step.Reserve? || step.Abort? || step.Save? || step.Fail?)
    ensures Sound(Next(s, step))
  {
    hide Faithful, Tidy;
    if step.Reserve? {
      ReserveKeepsTidy(s, step);
    } else if step.Abort? {
      if step.insert < |s.pending| {
        AbortKeepsTidy(s, step.insert);
      }
    } else {
      DraftStepKeepsTidy(s, step);
      if step.draft < |s.drafts| {
        WithoutElements(s.drafts, step.draft);
      }
    }
  }

  /** Only an event that becomes visible behind a snapshot can break soundness, and always
      does. */
  lemma StepKeepsSoundIff(s: Store, step: Step)
    requires Sound(s)
    ensures Sound(Next(s, step)) <==> Timely(s, step)
  {
    hide Sound, Replay, Draft, Insert;
    match step
    case Append(_, _, _, _, _) => AppendKeepsSound(s, step);
    case Compute(_) => ComputeKeepsSound(s, step);
    case Publish(i) =>
      if i < |s.pending| {
        PublishKeepsSoundIff(s, i);
      }
    case _ => OtherStepKeepsSound(s, step);
  }

  /** Every event of the run became visible ahead of all snapshots of its aggregate. */
  ghost predicate TimelyRun(s: Store, steps: seq<Step>) {
    forall i :: 0 <= i < |steps| ==> Timely(Run(s, steps[..i]), steps[i])
  }

  lemma {:induction false} TimelyRunKeepsSound(s: Store, steps: seq<Step>)
    requires Sound(s) && TimelyRun(s, steps)
    ensures Sound(Run(s, steps))
  {
    hide Next, Sound, Timely;
    if steps != [] {
      var n := |steps| - 1;
      TimelyPrefix(s, steps, n);
      TimelyRunKeepsSound(s, steps[..n]);
      StepKeepsSoundIff(Run(s, steps[..n]), steps[n]);
    }
  }

  lemma TimelyPrefix(s: Store, steps: seq<Step>, k: nat)
    requires TimelyRun(s, steps) && k <= |steps|
    ensures TimelyRun(s, steps[..k])
  {
    hide Timely, Run;
    forall i | 0 <= i < k ensures Timely(Run(s, steps[..k][..i]), steps[..k][i]) {
      assert steps[..k][..i] == steps[..i];
    }
  }

  /** In a run from the empty store all snapshots, saved or not, hold what they should after
      every step if and only if no event became visible behind one of them. */
  lemma SnapshotsSoundIffTimely(s: Store, steps: seq<Step>)
    requires Empty(s)
    ensures (forall k :: 0 <= k <= |steps| ==> Sound(Run(s, steps[..k]))) <==> TimelyRun(s, steps)
  {
    hide Sound, Run, Timely, Next;
    assert Sound(s) by { EmptyIsSound(s); }
    if TimelyRun(s, steps) {
      forall k | 0 <= k <= |steps| ensures Sound(Run(s, steps[..k])) {
        TimelyPrefix(s, steps, k);
        TimelyRunKeepsSound(s, steps[..k]);
      }
    }
    if forall k :: 0 <= k <= |steps| ==> Sound(Run(s, steps[..k])) {
      forall i | 0 <= i < |steps| ensures Timely(Run(s, steps[..i]), steps[i]) {
        StepKeepsSoundIff(Run(s, steps[..i]), steps[i]);
        RunOneMore(s, steps, i);
      }
    }
  }

  lemma EmptyIsSound(s: Store)
    requires Empty(s)
    ensures Sound(s)
  {
  }

  lemma RunOneMore(s: Store, steps: seq<Step>, i: nat)
    requires i < |steps|
    ensures Run(s, steps[..i + 1]) == Next(Run(s, steps[..i]), steps[i])
  {
    hide Next;
    assert steps[..i + 1][..i] == steps[..i];
  }

  /** Every history in which events become visible in time, of appends and overlapping
      inserts to any aggregates, and of snapshots computed, saved late, saved twice by
      competing processes, or lost: replay agrees with the full fold. */
  lemma ReplayAgreesInTimelyRuns(s: Store, steps: seq<Step>, a: Aggregate)
    requires Empty(s) && TimelyRun(s, steps)
    ensures var t := Run(s, steps);
      && SameCore(Replay(t.events, t.snapshots, a), FullFold(t.events, a))
      && (Replay(t.events, t.snapshots, a) == FullFold(t.events, a)
          <==> Latest(t.snapshots, a).None? || Unsnapshotted(t.events, t.snapshots, a) != [])
  {
    hide Run, Replay, FullFold;
    EmptyIsSound(s);
    TimelyRunKeepsSound(s, steps);
    ReplayIsFullFold(Run(s, steps), a);
  }

  // ---- How much a replay reads ----

  /** An append followed by its own snapshot check, which may fail. */
  function AppendAndCheck(s: Store, step: Step, works: bool): Store
    requires step.Append?
  {
    var t := Next(s, step);
    if works && |Unsnapshotted(t.events, t.snapshots, step.aggregate)| >= SNAPSHOT_INTERVAL
       && Replay(t.events, t.snapshots, step.aggregate).lastSequence.Some?
    then t.(snapshots := t.snapshots + [Draft(t.events, t.snapshots, step.aggregate)])
    else t
  }

  datatype Call = Call(step: Step, works: bool)

  function RunCalls(s: Store, calls: seq<Call>): Store
    requires forall c :: c in calls ==> c.step.Append?
  {
    if calls == [] then s
    else AppendAndCheck(RunCalls(s, calls[..|calls| - 1]), calls[|calls| - 1].step, calls[|calls| - 1].works)
  }

  /** The number of the aggregate's appends since the last one whose check worked. */
  function FailedInARow(calls: seq<Call>, a: Aggregate): nat
    requires forall c :: c in calls ==> c.step.Append?
  {
    if calls == [] then 0
    else
      var c, before := calls[|calls| - 1], FailedInARow(calls[..|calls| - 1], a);
      if c.step.aggregate != a then before else if c.works then 0 else before + 1
  }

  lemma FromAppend(events: seq<Event>, e: Event, a: Aggregate, low: nat)
    ensures From(events + [e], a, low)
            == From(events, a, low) + if e.aggregate == a && e.sequence >= low then [e] else []
  {
    assert (events + [e])[..|events|] == events;
  }

  lemma CheckBoundsTheRest(s: Store, step: Step, works: bool, a: Aggregate, failed: nat)
    requires Sound(s) && step.Append? && |Unsnapshotted(s.events, s.snapshots, a)| < SNAPSHOT_INTERVAL + failed
    ensures Sound(AppendAndCheck(s, step, works))
    ensures var t := AppendAndCheck(s, step, works);
      |Unsnapshotted(t.events, t.snapshots, a)|
      < SNAPSHOT_INTERVAL + if step.aggregate != a then failed else if works then 0 else failed + 1
  {
    hide Replay, Draft, From, Latest, Sound;
    var t, u := Next(s, step), AppendAndCheck(s, step, works);
    AppendKeepsSound(s, step);
    var e := t.events[|t.events| - 1];
    var latest := Latest(s.snapshots, a);
    FromAppend(s.events, e, a, if latest.Some? then latest.value.sequence + 1 else 0);
    if u != t {
      var draft := Draft(t.events, t.snapshots, step.aggregate);
      SavedDraftKeepsSound(t, step.aggregate);
      LatestAfter(t.snapshots, draft, a);
      if step.aggregate == a {
        DraftCoversAll(t, a);
      }
    } else if works && step.aggregate == a && |Unsnapshotted(t.events, t.snapshots, a)| >= SNAPSHOT_INTERVAL {
      ReplayHasEnd(t.events, t.snapshots, a);
    }
  }

  /** A replay that folds anything knows its last sequence. */
  lemma ReplayHasEnd(events: seq<Event>, snapshots: seq<Snapshot>, a: Aggregate)
    requires Unsnapshotted(events, snapshots, a) != []
    ensures Replay(events, snapshots, a).lastSequence.Some?
  {
    hide Unsnapshotted, Latest, Start;
  }

  lemma SavedDraftKeepsSound(s: Store, a: Aggregate)
    requires Sound(s) && Replay(s.events, s.snapshots, a).lastSequence.Some?
    ensures Sound(s.(snapshots := s.snapshots + [Draft(s.events, s.snapshots, a)]))
  {
    hide Replay, Draft, Faithful;
    DraftIsFaithful(s, a);
  }

  lemma LatestAfter(snapshots: seq<Snapshot>, x: Snapshot, a: Aggregate)
    ensures Latest(snapshots + [x], a)
            == if x.aggregate == a && (Latest(snapshots, a).None? || Latest(snapshots, a).value.sequence < x.sequence)
               then Some(x) else Latest(snapshots, a)
  {
    assert (snapshots + [x])[..|snapshots|] == snapshots;
  }

  /** A fresh snapshot leaves nothing behind it, and is the latest if there was anything
      new to fold. */
  lemma DraftCoversAll(s: Store, a: Aggregate)
    requires Sound(s) && Unsnapshotted(s.events, s.snapshots, a) != []
    requires Replay(s.events, s.snapshots, a).lastSequence.Some?
    ensures var x := Draft(s.events, s.snapshots, a);
      && x.aggregate == a && From(s.events, a, x.sequence + 1) == []
      && (Latest(s.snapshots, a).Some? ==> Latest(s.snapshots, a).value.sequence < x.sequence)
  {
    hide Replay, Sound, Latest, Faithful;
    var x, latest := Draft(s.events, s.snapshots, a), Latest(s.snapshots, a);
    ReplayIsFullFold(s, a);
    SoundIsIncreasing(s);
    FoldUpToItsEnd(s.events, a);
    HistorySplits(s.events, a, x.sequence);
    if latest.Some? {
      HistorySplits(s.events, a, latest.value.sequence);
      LastOfRest(s.events, a, latest.value.sequence + 1);
    }
  }

  lemma SoundIsIncreasing(s: Store)
    requires Sound(s)
    ensures Increasing(s.events)
  {
  }

  /** If the aggregate has events from `low` on, its full fold ends at one of them. */
  lemma {:induction false} LastOfRest(events: seq<Event>, a: Aggregate, low: nat)
    requires Increasing(events) && From(events, a, low) != []
    ensures var last := Fold(BLANK, From(events, a, 0)).lastSequence;
      last.Some? && last.value >= low
  {
    var prior, e := events[..|events| - 1], events[|events| - 1];
    if e.aggregate == a {
      assert From(events, a, 0)[..|From(events, a, 0)| - 1] == From(prior, a, 0);
      if e.sequence < low {
        NoneFrom(prior, a, low);
      }
    } else {
      assert From(events, a, 0) == From(prior, a, 0);
      LastOfRest(prior, a, low);
    }
  }

  lemma NothingToReplay(s: Store, a: Aggregate)
    requires Empty(s)
    ensures Sound(s) && Unsnapshotted(s.events, s.snapshots, a) == []
  {
  }

  /** When each append is followed by its own check, fewer than 20 events follow the latest
      snapshot, plus one for each check that failed since the last that worked. */
  lemma {:induction false} ReplayStaysShort(s: Store, calls: seq<Call>, a: Aggregate)
    requires Empty(s) && forall c :: c in calls ==> c.step.Append?
    ensures Sound(RunCalls(s, calls))
    ensures var t := RunCalls(s, calls);
      |Unsnapshotted(t.events, t.snapshots, a)| < 20 + FailedInARow(calls, a)
  {
    hide Unsnapshotted, Sound, AppendAndCheck;
    if calls == [] {
      NothingToReplay(s, a);
    } else {
      var prior, c := calls[..|calls| - 1], calls[|calls| - 1];
      assert c in calls;
      ReplayStaysShort(s, prior, a);
      CheckBoundsTheRest(RunCalls(s, prior), c.step, c.works, a, FailedInARow(prior, a));
    }
  }
}

/** The service with its loop over the events that follow the snapshot. */
module EventStoreService {
  import opened Basics
  import opened EventStore
  import opened EventStoreRuns
  import opened EventReplay

  class Service {
    var events: seq<Event>
    var snapshots: seq<Snapshot>
    var counter: nat

    function State(): Store
      reads this
    {
      Store(events, snapshots, counter, [], [])
    }

    constructor ()
      ensures Empty(State()) && Sound(State())
    {
      events, snapshots, counter := [], [], 0;
    }

    /** Replays from the latest snapshot; the result is the full fold and tells the visible
        events. */
    method ReplayAggregate(a: Aggregate) returns (state: AggregateState)
      requires Sound(State())
      ensures state == Replay(events, snapshots, a)
      ensures SameCore(state, FullFold(events, a)) && Tells(events, a, state)
    {
      hide Sound, Latest, From, Tells;
      var snapshot := Latest(snapshots, a);
      var rest := Unsnapshotted(events, snapshots, a);
      state := if snapshot.Some?
               then AggregateState(snapshot.value.version, Some(snapshot.value.sequence), None, None,
                                   snapshot.value.state)
               else AggregateState(0, None, None, None, map[]);
      for i := 0 to |rest|
        invariant state == Fold(Start(snapshot), rest[..i])
      {
        var event := rest[i];
        assert rest[..i + 1][..i] == rest[..i];
        state := state.(state := state.state + event.payload);
        state := state.(lastSequence := Some(event.sequence));
        state := state.(lastEventType := Some(event.eventType));
        state := state.(lastEventAt := Some(event.createdAt));
        state := state.(version := state.version + 1);
      }
      assert rest[..|rest|] == rest;
      ReplayIsFullFold(State(), a);
      ReplayTells(State(), a);
    }

    /** Takes a snapshot when enough events have gathered. */
    method MaybeSnapshot(a: Aggregate)
      requires Sound(State())
      modifies this`snapshots
      ensures snapshots == if |Unsnapshotted(events, old(snapshots), a)| >= 20
                              && Replay(events, old(snapshots), a).lastSequence.Some?
                           then old(snapshots) + [Draft(events, old(snapshots), a)] else old(snapshots)
    {
      hide Sound, Latest, From, Replay;
      var rest := Unsnapshotted(events, snapshots, a);
      if |rest| < SNAPSHOT_INTERVAL { return; }
      var replayed := ReplayAggregate(a);
      if replayed.lastSequence.None? { return; }
      snapshots := snapshots + [Snapshot(a, replayed.lastSequence.value, replayed.version, replayed.state)];
    }

    /** Appends one event; a snapshot that fails never undoes the append. */
    method Append(a: Aggregate, eventType: string, payload: Payload, createdAt: nat, gap: nat, works: bool)
      returns (saved: Event)
      requires Sound(State())
      modifies this
      ensures State() == AppendAndCheck(old(State()), EventStore.Append(a, eventType, payload, createdAt, gap), works)
      ensures Sound(State())
      ensures events == old(events) + [saved] && saved.sequence > old(counter)
      ensures saved == Event(a, eventType, payload, saved.sequence, createdAt)
    {
      hide Sound, Unsnapshotted, Replay, Draft;
      ghost var before := State();
      ghost var step := EventStore.Append(a, eventType, payload, createdAt, gap);
      saved := Event(a, eventType, payload, counter + 1 + gap, createdAt);
      events := events + [saved];
      counter := saved.sequence;
      AppendKeepsSound(before, step);
      assert State() == Next(before, step);
      ghost var appended := State();
      if works {
        MaybeSnapshot(a);
        if snapshots != appended.snapshots {
          SavedDraftKeepsSound(appended, a);
        }
      }
    }
  }
}
