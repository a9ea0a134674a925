/** What a replayed state holds, told from the visible events alone. */
module EventReplay {
  import opened Basics
  import opened EventStore
  import opened EventStoreRuns

  function EventsOf(events: seq<Event>, a: Aggregate): set<Event> {
    set e | e in events && e.aggregate == a
  }

  /** The event that decides a key: no event of the aggregate with a higher sequence has it. */
  predicate Decides(events: seq<Event>, a: Aggregate, k: string, e: Event) {
    && e in EventsOf(events, a) && k in e.payload
    && forall f :: f in EventsOf(events, a) && k in f.payload ==> f.sequence <= e.sequence
  }

  /** A key is in the state exactly if some event of the aggregate has it, with the value
      that the latest such event gives it. */
  ghost predicate HoldsLatestAt(events: seq<Event>, a: Aggregate, state: Payload, k: string) {
    && (k in state <==> exists e :: e in EventsOf(events, a) && k in e.payload)
    && (k in state ==> exists e :: Decides(events, a, k, e))
    && (forall e :: k in state && Decides(events, a, k, e) ==> state[k] == e.payload[k])
  }

  ghost predicate HoldsLatest(events: seq<Event>, a: Aggregate, state: Payload) {
    forall k :: HoldsLatestAt(events, a, state, k)
  }

  /** The last event of the aggregate. */
  predicate IsLast(events: seq<Event>, a: Aggregate, e: Event) {
    e in EventsOf(events, a) && forall f :: f in EventsOf(events, a) ==> f.sequence <= e.sequence
  }

  /** Number of events and last sequence are those of the visible events, and the last
      event's type and time, if shown, are those of the last of them. */
  ghost predicate Ends(events: seq<Event>, a: Aggregate, st: AggregateState) {
    && st.version == |EventsOf(events, a)|
    && (st.lastSequence.None? <==> EventsOf(events, a) == {})
    && (forall e :: IsLast(events, a, e) ==> st.lastSequence == Some(e.sequence))
    && (forall e :: IsLast(events, a, e) && (st.lastEventType.Some? || st.lastEventAt.Some?) ==>
          st.lastEventType == Some(e.eventType) && st.lastEventAt == Some(e.createdAt))
  }

  ghost predicate Tells(events: seq<Event>, a: Aggregate, st: AggregateState) {
    HoldsLatest(events, a, st.state) && Ends(events, a, st)
  }

  lemma OneMoreEvent(prior: seq<Event>, e: Event, a: Aggregate)
    requires Increasing(prior + [e])
    ensures Increasing(prior) && e !in prior
    ensures EventsOf(prior + [e], a) == EventsOf(prior, a) + if e.aggregate == a then {e} else {}
    ensures forall f :: f in EventsOf(prior, a) ==> f.sequence < e.sequence
  {
    assert forall f :: f in prior + [e] <==> f in prior || f == e;
    forall i | 0 <= i < |prior| ensures prior[i].sequence < e.sequence {
      assert (prior + [e])[i] == prior[i] && (prior + [e])[|prior|] == e;
    }
    forall i, j | 0 <= i < j < |prior| ensures prior[i].sequence < prior[j].sequence {
      assert (prior + [e])[i] == prior[i] && (prior + [e])[j] == prior[j];
    }
  }

  /** The latest event decides its own keys and no others. */
  lemma DecidesAfter(prior: seq<Event>, e: Event, a: Aggregate, k: string, f: Event)
    requires Increasing(prior + [e])
    ensures Decides(prior + [e], a, k, f)
            <==> if e.aggregate == a && k in e.payload then f == e else Decides(prior, a, k, f)
  {
    hide Increasing;
    OneMoreEvent(prior, e, a);
    if e.aggregate == a {
      assert e in EventsOf(prior + [e], a);
    }
  }

  lemma MergeHoldsLatestAt(prior: seq<Event>, e: Event, a: Aggregate, state: Payload, k: string)
    requires Increasing(prior + [e]) && HoldsLatestAt(prior, a, state, k)
    ensures HoldsLatestAt(prior + [e], a, if e.aggregate == a then state + e.payload else state, k)
  {
    hide Increasing, Decides, EventsOf;
    OneMoreEvent(prior, e, a);
    forall f ensures Decides(prior + [e], a, k, f)
                     <==> if e.aggregate == a && k in e.payload then f == e else Decides(prior, a, k, f)
    {
      DecidesAfter(prior, e, a, k, f);
    }
    if e.aggregate == a && k in e.payload {
      assert e in EventsOf(prior + [e], a) && Decides(prior + [e], a, k, e);
    } else if k in state {
      var f :| Decides(prior, a, k, f);
      assert Decides(prior + [e], a, k, f);
    }
  }

  /** The latest event overrides; the other keys keep their deciding events. */
  lemma MergeHoldsLatest(prior: seq<Event>, e: Event, a: Aggregate, state: Payload)
    requires Increasing(prior + [e]) && HoldsLatest(prior, a, state)
    ensures HoldsLatest(prior + [e], a, if e.aggregate == a then state + e.payload else state)
  {
    hide Increasing, HoldsLatestAt;
    var events, after := prior + [e], if e.aggregate == a then state + e.payload else state;
    forall k ensures HoldsLatestAt(events, a, after, k) {
      MergeHoldsLatestAt(prior, e, a, state, k);
    }
  }

  /** The new event is the last one. */
  lemma EndsWithLast(prior: seq<Event>, e: Event, a: Aggregate, before: AggregateState, after: AggregateState)
    requires Increasing(prior + [e]) && e.aggregate == a && Ends(prior, a, before)
    requires after == AggregateState(before.version + 1, Some(e.sequence), Some(e.eventType), Some(e.createdAt),
                                     after.state)
    ensures Ends(prior + [e], a, after)
  {
    hide Increasing;
    OneMoreEvent(prior, e, a);
    assert e in EventsOf(prior + [e], a);
    forall f | IsLast(prior + [e], a, f) ensures f == e {
      assert f.sequence >= e.sequence;
    }
  }

  lemma EndsAsBefore(prior: seq<Event>, e: Event, a: Aggregate, st: AggregateState)
    requires Increasing(prior + [e]) && e.aggregate != a && Ends(prior, a, st)
    ensures Ends(prior + [e], a, st)
  {
    hide Increasing;
    OneMoreEvent(prior, e, a);
    assert EventsOf(prior + [e], a) == EventsOf(prior, a);
    assert forall f :: IsLast(prior + [e], a, f) <==> IsLast(prior, a, f);
  }

  /** The full fold tells the events, whatever they are. */
  lemma {:induction false} FullFoldTells(events: seq<Event>, a: Aggregate)
    requires Increasing(events)
    ensures Tells(events, a, FullFold(events, a))
  {
    hide From, HoldsLatest, Ends, Fold, Increasing;
    if events == [] {
      NothingToTell(a);
    } else {
      var prior, e := events[..|events| - 1], events[|events| - 1];
      assert events == prior + [e];
      OneMoreEvent(prior, e, a);
      FullFoldTells(prior, a);
      FromAppend(prior, e, a, 0);
      MergeHoldsLatest(prior, e, a, FullFold(prior, a).state);
      if e.aggregate == a {
        FoldOneMore(BLANK, From(prior, a, 0), e);
        EndsWithLast(prior, e, a, FullFold(prior, a), FullFold(events, a));
      } else {
        assert From(prior, a, 0) + [] == From(prior, a, 0);
        EndsAsBefore(prior, e, a, FullFold(prior, a));
      }
    }
  }

  lemma NothingToTell(a: Aggregate)
    ensures Tells([], a, FullFold([], a))
  {
    assert EventsOf([], a) == {};
  }

  lemma FoldOneMore(st: AggregateState, events: seq<Event>, e: Event)
    ensures var before, after := Fold(st, events), Fold(st, events + [e]);
      && after.version == before.version + 1 && after.state == before.state + e.payload
      && after.lastSequence == Some(e.sequence)
      && after.lastEventType == Some(e.eventType) && after.lastEventAt == Some(e.createdAt)
  {
    assert (events + [e])[..|events|] == events;
  }

  /** A replay from the latest snapshot tells the visible events: of every key the value of
      the latest event that has it, the number of events, and the last sequence. */
  lemma ReplayTells(s: Store, a: Aggregate)
    requires Sound(s)
    ensures Tells(s.events, a, Replay(s.events, s.snapshots, a))
  {
    hide Replay, FullFold, Sound, HoldsLatest;
    SoundIsIncreasing(s);
    FullFoldTells(s.events, a);
    ReplayIsFullFold(s, a);
    NothingBehindShowsNoEvent(s, a);
  }

  /** With nothing behind the snapshot the last event is not shown. */
  lemma NothingBehindShowsNoEvent(s: Store, a: Aggregate)
    ensures var st := Replay(s.events, s.snapshots, a);
      Latest(s.snapshots, a).Some? && Unsnapshotted(s.events, s.snapshots, a) == []
      ==> st.lastEventType.None? && st.lastEventAt.None?
  {
    hide From, Latest;
  }

  /** ... in every history in which events become visible in time. */
  lemma ReplayTellsInTimelyRuns(s: Store, steps: seq<Step>, a: Aggregate)
    requires Empty(s) && TimelyRun(s, steps)
    ensures Tells(Run(s, steps).events, a, Replay(Run(s, steps).events, Run(s, steps).snapshots, a))
  {
    hide Run, Replay, Tells;
    EmptyIsSound(s);
    TimelyRunKeepsSound(s, steps);
    ReplayTells(Run(s, steps), a);
  }
}
