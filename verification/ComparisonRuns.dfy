/** What whole runs of the comparator keep, when every source has one series open at a time. */
module ComparisonRuns {
  import opened Options
  import opened OrderedDicts
  import opened Comparison

  /** The open series of each source and the keys it has brought so far. */
  type Current = map<SourceId, (SeriesId, set<Key>)>

  datatype Input = Message(e: Event) | TimerFires(t: TimerId)

  /** A flag marks exactly the keys that the open series of the source has brought. */
  ghost predicate FlagsMatch(s: Source, current: Option<(SeriesId, set<Key>)>) {
    && Unique(s.blacklist)
    && (current.Some? ==> forall k | k in current.value.1 :: Has(s.blacklist, k))
    && (forall k | Has(s.blacklist, k) ::
          Get(s.blacklist, k).flag
          == if current.Some? && k in current.value.1 then Some(current.value.0) else None)
  }

  function CurrentOf(c: Current, source: SourceId): Option<(SeriesId, set<Key>)> {
    if source in c then Some(c[source]) else None
  }

  ghost predicate Tracks(c: Current, st: State) {
    && TimersMatch(st) && CountsMatch(st)
    && (forall s | s in c :: c[s].0 in st.openSeries)
    && (forall s, s' | s in c && s' in c && c[s].0 == c[s'].0 :: s == s')
    && (forall t | t in st.timers :: st.timers[t].0 in c && c[st.timers[t].0].0 == st.timers[t].1)
    && (forall s :: FlagsMatch(SourceOf(st, s), CurrentOf(c, s)))
  }

  /** One series per source at a time, and one source per series. */
  ghost predicate Disciplined(c: Current, st: State, e: Event) {
    if e.source in c then e.seriesId == c[e.source].0 else e.seriesId !in st.openSeries
  }

  /** The keys brought after one more message; a failing one brings none. */
  function Brought(c: Current, st: State, e: Event): set<Key> {
    var before := if e.source in c then c[e.source].1 else {};
    if ProcessEvent(SourceOf(st, e.source), e).1.Ok? then before + {EventKey(e).value} else before
  }

  /** Does the message complete its series? */
  predicate Completes(st: State, e: Event) {
    && IsMessageValid(st, e) && ProcessEvent(SourceOf(st, e.source), e).1.Ok?
    && IsComplete(UpdatedSeries(st, e))
  }

  function NextCurrent(c: Current, st: State, e: Event): Current {
    if !IsMessageValid(st, e) then c
    else if Completes(st, e) then c - {e.source}
    else c[e.source := (e.seriesId, Brought(c, st, e))]
  }

  // ---------------------------------------------------------------- one source

  /** Storing touches one key, and flags it. */
  lemma StoreAt(d: Blacklist, k: Key, e: Event, x: Key)
    requires Unique(d)
    ensures var d' := Store(d, k, e).0;
            && Unique(d') && (Has(d', x) <==> Has(d, x) || x == k)
            && (x != k && Has(d, x) ==> Get(d', x) == Get(d, x))
            && (x == k ==> Get(d', x).flag == Some(e.seriesId) && Get(d', x).expires == e.expires
                           && multiset(Get(d', x).ips) == multiset(IpsOf(e)))
  {
    var d' := Store(d, k, e).0;
    if x != k {
      PutOther(d, k, Get(d', k), x);
    }
  }

  lemma StoreFlags(s: Source, current: Option<(SeriesId, set<Key>)>, e: Event, k: Key, time: Option<Time>)
    requires FlagsMatch(s, current) && (current.Some? ==> current.value.0 == e.seriesId)
    ensures var seen := (if current.Some? then current.value.1 else {}) + {k};
            FlagsMatch(Source(time, Store(s.blacklist, k, e).0), Some((e.seriesId, seen)))
  {
    var d' := Store(s.blacklist, k, e).0;
    StoreAt(s.blacklist, k, e, k);
    forall x
      ensures Has(d', x) <==> Has(s.blacklist, x) || x == k
      ensures x != k && Has(s.blacklist, x) ==> Get(d', x) == Get(s.blacklist, x)
      ensures x == k ==> Get(d', x).flag == Some(e.seriesId)
    {
      StoreAt(s.blacklist, k, e, x);
    }
  }

  lemma DeletedFlags(s: Source, current: (SeriesId, set<Key>), time: Time)
    requires FlagsMatch(s, Some(current))
    ensures FlagsMatch(s.(blacklist := ProcessDeleted(s.blacklist, time).0), None)
    ensures forall k :: Has(ProcessDeleted(s.blacklist, time).0, k)
                        <==> k in current.1 && Get(s.blacklist, k).expires >= time
  {
    var d := s.blacklist;
    DeletedUnique(d, time);
    forall k
      ensures Has(ProcessDeleted(d, time).0, k) <==> k in current.1 && Get(d, k).expires >= time
      ensures Has(ProcessDeleted(d, time).0, k) ==> Get(ProcessDeleted(d, time).0, k).flag == None
    {
      DeletedHas(d, time, k);
    }
  }

  lemma ClearedFlags(s: Source, current: (SeriesId, set<Key>))
    requires FlagsMatch(s, Some(current))
    ensures FlagsMatch(s.(blacklist := ClearFlags(s.blacklist, current.0)), None)
  {
    var d' := ClearFlags(s.blacklist, current.0);
    forall k
      ensures Has(d', k) <==> Has(s.blacklist, k)
      ensures Has(d', k) ==> Get(d', k).flag == None
    {
      ClearedHas(s.blacklist, current.0, k);
    }
  }

  // ---------------------------------------------------------------- the steps

  /** The source of the message, after it and before any finalization. */
  lemma EventFlags(c: Current, st: State, e: Event)
    requires Tracks(c, st) && Disciplined(c, st, e)
    ensures FlagsMatch(ProcessEvent(SourceOf(st, e.source), e).0, Some((e.seriesId, Brought(c, st, e))))
  {
    var s := SourceOf(st, e.source);
    assert FlagsMatch(s, CurrentOf(c, e.source));
    if ProcessEvent(s, e).1.Ok? {
      StoreFlags(s, CurrentOf(c, e.source), e, EventKey(e).value, Some(e.blTime));
    }
  }

  lemma CompletesMeans(st: State, e: Event)
    ensures Completes(st, e) <==> IsMessageValid(st, e) && ProcessInput(st, e).2.None?
                                  && e.seriesId !in ProcessInput(st, e).0.openSeries
  {
  }

  /** The other sources are left alone. */
  lemma OtherSources(st: State, e: Event, s: SourceId)
    requires s != e.source
    ensures SourceOf(ProcessInput(st, e).0, s) == SourceOf(st, s)
  {
  }

  /** The source's own data after the message. */
  lemma OwnSource(st: State, e: Event)
    requires IsMessageValid(st, e)
    ensures var s := ProcessEvent(SourceOf(st, e.source), e).0;
            SourceOf(ProcessInput(st, e).0, e.source)
            == if Completes(st, e) then s.(blacklist := ProcessDeleted(s.blacklist, s.time.value).0) else s
  {
  }

  lemma OwnFlags(c: Current, st: State, e: Event)
    requires Tracks(c, st) && Disciplined(c, st, e) && IsMessageValid(st, e)
    ensures FlagsMatch(SourceOf(ProcessInput(st, e).0, e.source), CurrentOf(NextCurrent(c, st, e), e.source))
  {
    var s := ProcessEvent(SourceOf(st, e.source), e).0;
    EventFlags(c, st, e);
    OwnSource(st, e);
    if Completes(st, e) {
      DeletedFlags(s, (e.seriesId, Brought(c, st, e)), s.time.value);
    }
  }

  lemma OpenSeriesAfter(st: State, e: Event)
    requires IsMessageValid(st, e)
    ensures ProcessInput(st, e).0.openSeries.Keys
            == if Completes(st, e) then st.openSeries.Keys - {e.seriesId} else st.openSeries.Keys + {e.seriesId}
  {
  }

  lemma TimersAfter(st: State, e: Event, t: TimerId)
    requires IsMessageValid(st, e) && TimersMatch(st) && CountsMatch(st) && t in ProcessInput(st, e).0.timers
    ensures var st' := ProcessInput(st, e).0;
            && (t == st.nextTimer ==> st'.timers[t] == (e.source, e.seriesId) && !Completes(st, e))
            && (t != st.nextTimer ==> t in st.timers && st'.timers[t] == st.timers[t] && st.timers[t].1 != e.seriesId)
  {
    CountedKeepsMatches(st, e);
    assert t in Counted(st, e).timers;
    if t != st.nextTimer {
      assert t in st.timers && st.timers[t].1 in st.openSeries;
      assert st.openSeries[st.timers[t].1].timer == Some(t);
    }
  }

  lemma SeriesStayOpen(c: Current, st: State, e: Event)
    requires Tracks(c, st) && Disciplined(c, st, e) && IsMessageValid(st, e)
    ensures forall s | s in NextCurrent(c, st, e) :: NextCurrent(c, st, e)[s].0 in ProcessInput(st, e).0.openSeries
  {
    OpenSeriesAfter(st, e);
    assert forall s | s in c && s != e.source :: c[s].0 != e.seriesId;
  }

  lemma SeriesStayApart(c: Current, st: State, e: Event)
    requires Tracks(c, st) && Disciplined(c, st, e)
    ensures var c' := NextCurrent(c, st, e); forall s, s' | s in c' && s' in c' && c'[s].0 == c'[s'].0 :: s == s'
  {
    assert forall s | s in c && s != e.source :: c[s].0 != e.seriesId;
  }

  lemma TimersStayTracked(c: Current, st: State, e: Event, t: TimerId)
    requires Tracks(c, st) && Disciplined(c, st, e) && IsMessageValid(st, e) && t in ProcessInput(st, e).0.timers
    ensures var c', st' := NextCurrent(c, st, e), ProcessInput(st, e).0;
            st'.timers[t].0 in c' && c'[st'.timers[t].0].0 == st'.timers[t].1
  {
    TimersAfter(st, e, t);
    if t != st.nextTimer {
      var source := st.timers[t].0;
      assert source in c && c[source].0 == st.timers[t].1;
      assert source != e.source;
    }
  }

  lemma FlagsAfter(c: Current, st: State, e: Event, s: SourceId)
    requires Tracks(c, st) && Disciplined(c, st, e) && IsMessageValid(st, e)
    ensures FlagsMatch(SourceOf(ProcessInput(st, e).0, s), CurrentOf(NextCurrent(c, st, e), s))
  {
    if s == e.source {
      OwnFlags(c, st, e);
    } else {
      OtherSources(st, e, s);
      assert FlagsMatch(SourceOf(st, s), CurrentOf(c, s));
    }
  }

  /** Every message keeps the flags equal to what the open series has brought. */
  lemma MessageKeepsTracking(c: Current, st: State, e: Event)
    requires Tracks(c, st) && Disciplined(c, st, e)
    ensures Tracks(NextCurrent(c, st, e), ProcessInput(st, e).0)
  {
    ProcessInputKeepsMatches(st, e);
    if IsMessageValid(st, e) {
      var c', st' := NextCurrent(c, st, e), ProcessInput(st, e).0;
      SeriesStayOpen(c, st, e);
      SeriesStayApart(c, st, e);
      forall t | t in st'.timers
        ensures st'.timers[t].0 in c' && c'[st'.timers[t].0].0 == st'.timers[t].1
      {
        TimersStayTracked(c, st, e, t);
      }
      forall s
        ensures FlagsMatch(SourceOf(st', s), CurrentOf(c', s))
      {
        FlagsAfter(c, st, e, s);
      }
    }
  }

  lemma TimeoutFlags(c: Current, st: State, t: TimerId, s: SourceId)
    requires Tracks(c, st) && t in st.timers
    ensures FlagsMatch(SourceOf(OnTimeout(st, t), s), CurrentOf(c - {st.timers[t].0}, s))
  {
    var source := st.timers[t].0;
    assert FlagsMatch(SourceOf(st, s), CurrentOf(c, s));
    if s == source {
      ClearedFlags(SourceOf(st, s), c[s]);
    } else {
      assert SourceOf(OnTimeout(st, t), s) == SourceOf(st, s);
    }
  }

  lemma TimeoutSeries(c: Current, st: State, t: TimerId)
    requires Tracks(c, st) && t in st.timers
    ensures var c', st' := c - {st.timers[t].0}, OnTimeout(st, t);
            && (forall s | s in c' :: c'[s].0 in st'.openSeries)
            && (forall x | x in st'.timers :: st'.timers[x].0 in c' && c'[st'.timers[x].0].0 == st'.timers[x].1)
  {
    var (source, sid) := st.timers[t];
    var st' := OnTimeout(st, t);
    forall x | x in st'.timers
      ensures st.timers[x].0 != source
    {
      assert st.openSeries[st.timers[x].1].timer == Some(x) && st.openSeries[sid].timer == Some(t);
    }
  }

  lemma TimeoutKeepsTracking(c: Current, st: State, t: TimerId)
    requires Tracks(c, st) && t in st.timers
    ensures Tracks(c - {st.timers[t].0}, OnTimeout(st, t))
  {
    OnTimeoutKeepsMatches(st, t);
    TimeoutSeries(c, st, t);
    forall s
      ensures FlagsMatch(SourceOf(OnTimeout(st, t), s), CurrentOf(c - {st.timers[t].0}, s))
    {
      TimeoutFlags(c, st, t, s);
    }
  }

  /** The finalization of a series leaves on the blacklist exactly the keys this series has brought whose
      expiry is not before the source's time, with every flag cleared. */
  lemma FinalizationKeepsWhatWasBrought(c: Current, st: State, e: Event)
    requires Tracks(c, st) && Disciplined(c, st, e) && Completes(st, e)
    ensures var before := ProcessEvent(SourceOf(st, e.source), e).0;
            var after := SourceOf(ProcessInput(st, e).0, e.source);
            && before.time == after.time == Some(e.blTime)
            && (forall k | k in Brought(c, st, e) :: Has(before.blacklist, k))
            && (forall k :: Has(after.blacklist, k)
                            <==> k in Brought(c, st, e) && Get(before.blacklist, k).expires >= e.blTime)
            && (forall k | Has(after.blacklist, k) :: Get(after.blacklist, k).flag == None)
  {
    var s := ProcessEvent(SourceOf(st, e.source), e).0;
    EventFlags(c, st, e);
    OwnSource(st, e);
    DeletedFlags(s, (e.seriesId, Brought(c, st, e)), s.time.value);
  }

  // ---------------------------------------------------------------- runs

  predicate Enabled(st: State, i: Input) {
    i.TimerFires? ==> i.t in st.timers && st.timers[i.t].1 in st.openSeries
  }

  function Step(st: State, i: Input): State
    requires Enabled(st, i)
  {
    match i
    case Message(e) => ProcessInput(st, e).0
    case TimerFires(t) => OnTimeout(st, t)
  }

  function StepCurrent(c: Current, st: State, i: Input): Current
    requires Enabled(st, i)
  {
    match i
    case Message(e) => NextCurrent(c, st, e)
    case TimerFires(t) => c - {st.timers[t].0}
  }

  /** A run in which every message belongs to the one open series of its source, or opens one. */
  ghost predicate DisciplinedRun(c: Current, st: State, inputs: seq<Input>)
    decreases |inputs|
  {
    inputs == []
    || (&& Enabled(st, inputs[0])
        && (inputs[0].Message? ==> Disciplined(c, st, inputs[0].e))
        && DisciplinedRun(StepCurrent(c, st, inputs[0]), Step(st, inputs[0]), inputs[1..]))
  }

  function RunOf(c: Current, st: State, inputs: seq<Input>): (Current, State)
    requires DisciplinedRun(c, st, inputs)
    decreases |inputs|
  {
    if inputs == [] then (c, st)
    else RunOf(StepCurrent(c, st, inputs[0]), Step(st, inputs[0]), inputs[1..])
  }

  /** A run goes on from where it stopped. */
  lemma {:induction false} RunOfMore(c: Current, st: State, inputs: seq<Input>, i: Input)
    requires DisciplinedRun(c, st, inputs)
    ensures var (c', st') := RunOf(c, st, inputs);
            Enabled(st', i) && (i.Message? ==> Disciplined(c', st', i.e)) ==>
              && DisciplinedRun(c, st, inputs + [i])
              && RunOf(c, st, inputs + [i]) == (StepCurrent(c', st', i), Step(st', i))
    decreases |inputs|
  {
    if inputs == [] {
      assert inputs + [i] == [i];
    } else {
      RunOfMore(StepCurrent(c, st, inputs[0]), Step(st, inputs[0]), inputs[1..], i);
      assert (inputs + [i])[1..] == inputs[1..] + [i];
    }
  }

  lemma StepKeepsTracking(c: Current, st: State, i: Input)
    requires Tracks(c, st) && Enabled(st, i) && (i.Message? ==> Disciplined(c, st, i.e))
    ensures Tracks(StepCurrent(c, st, i), Step(st, i))
  {
    match i
    case Message(e) => MessageKeepsTracking(c, st, e);
    case TimerFires(t) => TimeoutKeepsTracking(c, st, t);
  }

  lemma {:induction false} RunStaysTracked(c: Current, st: State, inputs: seq<Input>)
    requires Tracks(c, st) && DisciplinedRun(c, st, inputs)
    ensures Tracks(RunOf(c, st, inputs).0, RunOf(c, st, inputs).1)
    decreases |inputs|
  {
    if inputs != [] {
      StepKeepsTracking(c, st, inputs[0]);
      RunStaysTracked(StepCurrent(c, st, inputs[0]), Step(st, inputs[0]), inputs[1..]);
    }
  }

  /** From the start, over any disciplined run: timers match the open series one to one, and flags mark
      exactly what the open series have brought. */
  lemma EveryRunIsTracked(inputs: seq<Input>)
    requires DisciplinedRun(map[], INITIAL, inputs)
    ensures Tracks(RunOf(map[], INITIAL, inputs).0, RunOf(map[], INITIAL, inputs).1)
  {
    RunStaysTracked(map[], INITIAL, inputs);
  }
}
