/** A whole series delivered in full, from any state: after overlapping series, failures and restarts. */
module ComparisonSeries {
  import opened Options
  import opened OrderedDicts
  import opened Comparison
  import opened ComparisonRuns

  /** All messages of one series, in order of time: each has a key and a number of its own. */
  ghost predicate IsSeries(es: seq<Event>, source: SourceId, sid: SeriesId) {
    && es != []
    && (forall i | 0 <= i < |es| ::
          && es[i].source == source && es[i].seriesId == sid && es[i].total == |es| && EventKey(es[i]).Some?)
    && (forall i, j | 0 <= i < j < |es| :: es[i].no != es[j].no && es[i].blTime <= es[j].blTime)
  }

  /** The state after the first `n` messages. */
  function After(st: State, es: seq<Event>, n: nat): State
    requires n <= |es|
  {
    if n == 0 then st else ProcessInput(After(st, es, n - 1), es[n - 1]).0
  }

  /** The expiry time in the last of the first `n` messages with a key. */
  function LastExpiry(es: seq<Event>, n: nat, k: Key): Option<Time>
    requires n <= |es|
  {
    if n == 0 then None
    else if EventKey(es[n - 1]) == Some(k) then Some(es[n - 1].expires)
    else LastExpiry(es, n - 1, k)
  }

  /** Can the series begin: is it new, and is the source's time not ahead? */
  ghost predicate MayBegin(st: State, e: Event) {
    var s := SourceOf(st, e.source);
    Unique(s.blacklist) && e.seriesId !in st.openSeries && (s.time.Some? ==> s.time.value <= e.blTime)
  }

  ghost predicate HasNumber(es: seq<Event>, n: nat, x: int)
    requires n <= |es|
  {
    exists i :: 0 <= i < n && es[i].no == x
  }

  ghost predicate CountedSoFar(s: Series, es: seq<Event>, n: nat)
    requires n <= |es|
  {
    s.total == |es| && s.count == n && forall x :: x in s.nums ==> HasNumber(es, n, x)
  }

  lemma CountedOneMore(s: Series, es: seq<Event>, n: nat, s': Series)
    requires n < |es| && CountedSoFar(s, es, n)
    requires s'.total == s.total && s'.count == s.count + 1 && s'.nums == s.nums + [es[n].no]
    ensures CountedSoFar(s', es, n + 1)
  {
    forall x | x in s'.nums
      ensures HasNumber(es, n + 1, x)
    {
      assert x in s.nums || x == es[n].no;
      assert es[n].no == x || HasNumber(es, n, x);
    }
  }

  /** A key listed so far is flagged, with its last expiry time; any other key is as it was at the start. */
  ghost predicate ShownAt(d: Blacklist, start: Blacklist, es: seq<Event>, n: nat, k: Key)
    requires n <= |es|
  {
    var listed := LastExpiry(es, n, k);
    if listed.Some? then Has(d, k) && Get(d, k).flag.Some? && Get(d, k).expires == listed.value
    else (Has(d, k) <==> Has(start, k)) && (Has(d, k) ==> Get(d, k) == Get(start, k))
  }

  ghost predicate Shown(d: Blacklist, start: Blacklist, es: seq<Event>, n: nat)
    requires n <= |es|
  {
    Unique(d) && forall k :: ShownAt(d, start, es, n, k)
  }

  lemma ShownNext(d: Blacklist, start: Blacklist, es: seq<Event>, n: nat, k: Key)
    requires n < |es| && EventKey(es[n]) == Some(k) && Shown(d, start, es, n)
    ensures Shown(Store(d, k, es[n]).0, start, es, n + 1)
  {
    var d', m := Store(d, k, es[n]).0, n + 1;
    StoreAt(d, k, es[n], k);
    forall x
      ensures ShownAt(d', start, es, m, x)
    {
      assert ShownAt(d, start, es, n, x);
      StoreAt(d, k, es[n], x);
    }
  }

  /** Before message `n`: the ones before are all counted and all on the blacklist. */
  ghost predicate Ready(st: State, start: Blacklist, es: seq<Event>, n: nat)
    requires n < |es|
  {
    var e := es[n];
    && Shown(SourceOf(st, e.source).blacklist, start, es, n)
    && if n == 0 then MayBegin(st, e)
       else
         && e.seriesId in st.openSeries && CountedSoFar(st.openSeries[e.seriesId], es, n)
         && SourceOf(st, e.source).time == Some(es[n - 1].blTime)
  }

  /** The next message of the series is accepted and stored. */
  lemma Accepted(st: State, start: Blacklist, es: seq<Event>, n: nat, source: SourceId, sid: SeriesId)
    requires IsSeries(es, source, sid) && n < |es| && Ready(st, start, es, n)
    ensures var s, e := SourceOf(st, source), es[n];
            && IsMessageValid(st, e)
            && CountedSoFar(UpdatedSeries(st, e), es, n + 1)
            && (Completes(st, e) <==> n + 1 == |es|)
            && ProcessEvent(s, e).1.Ok?
            && ProcessEvent(s, e).0 == Source(Some(e.blTime), Store(s.blacklist, EventKey(e).value, e).0)
            && Shown(ProcessEvent(s, e).0.blacklist, start, es, n + 1)
  {
    var s, e := SourceOf(st, source), es[n];
    ShownNext(s.blacklist, start, es, n, EventKey(e).value);
    if n > 0 {
      assert es[n - 1].blTime <= e.blTime;
      assert e.no !in st.openSeries[sid].nums;
      CountedOneMore(st.openSeries[sid], es, n, UpdatedSeries(st, e));
    } else {
      CountedOneMore(Series(e.total, 0, [], None), es, 0, UpdatedSeries(st, e));
    }
  }

  lemma OpenSeriesKept(st: State, e: Event)
    requires IsMessageValid(st, e) && !Completes(st, e) && ProcessEvent(SourceOf(st, e.source), e).1.Ok?
    ensures var st', s := ProcessInput(st, e).0, UpdatedSeries(st, e);
            && e.seriesId in st'.openSeries
            && st'.openSeries[e.seriesId] == s.(timer := Some(st.nextTimer))
  {
  }

  lemma StaysReady(st: State, start: Blacklist, es: seq<Event>, n: nat, source: SourceId, sid: SeriesId)
    requires IsSeries(es, source, sid) && n + 1 < |es| && Ready(st, start, es, n)
    ensures Ready(ProcessInput(st, es[n]).0, start, es, n + 1)
  {
    Accepted(st, start, es, n, source, sid);
    OwnSource(st, es[n]);
    OpenSeriesKept(st, es[n]);
  }

  lemma {:induction false} ReadyAfter(st: State, es: seq<Event>, n: nat, source: SourceId, sid: SeriesId)
    requires IsSeries(es, source, sid) && MayBegin(st, es[0]) && n < |es|
    ensures Ready(After(st, es, n), SourceOf(st, source).blacklist, es, n)
    decreases n
  {
    var start := SourceOf(st, source).blacklist;
    if n == 0 {
      assert forall k :: ShownAt(start, start, es, 0, k);
    } else {
      ReadyAfter(st, es, n - 1, source, sid);
      StaysReady(After(st, es, n - 1), start, es, n - 1, source, sid);
    }
  }

  /** Listed by the series, and not expired at its last message. */
  ghost predicate ListedAndValid(es: seq<Event>, k: Key)
    requires es != []
  {
    LastExpiry(es, |es|, k).Some? && LastExpiry(es, |es|, k).value >= es[|es| - 1].blTime
  }

  /** Not listed, but flagged before the series began, and not expired. */
  ghost predicate Leftover(start: Blacklist, es: seq<Event>, k: Key)
    requires es != []
  {
    LastExpiry(es, |es|, k).None? && Has(start, k) && Stays(Get(start, k), es[|es| - 1].blTime)
  }

  /** The keys that the series listed, less those already expired by its last message. */
  ghost predicate IsExactly(d: Blacklist, es: seq<Event>)
    requires es != []
  {
    forall k :: Has(d, k) <==> ListedAndValid(es, k)
  }

  lemma LastMessageFinalizes(st: State, start: Blacklist, es: seq<Event>, source: SourceId, sid: SeriesId)
    requires IsSeries(es, source, sid) && Ready(st, start, es, |es| - 1)
    ensures var end := ProcessInput(st, es[|es| - 1]).0;
            && sid !in end.openSeries
            && forall k :: Has(SourceOf(end, source).blacklist, k) <==> ListedAndValid(es, k) || Leftover(start, es, k)
  {
    var n := |es| - 1;
    var e := es[n];
    Accepted(st, start, es, n, source, sid);
    CompletesMeans(st, e);
    OwnSource(st, e);
    var d := ProcessEvent(SourceOf(st, source), e).0.blacklist;
    forall k
      ensures Has(ProcessDeleted(d, e.blTime).0, k) <==> ListedAndValid(es, k) || Leftover(start, es, k)
    {
      assert ShownAt(d, start, es, n + 1, k);
      DeletedHas(d, e.blTime, k);
    }
  }

  /** From any state, a series delivered as a whole is finalized by its last message, and leaves exactly
      the keys it listed and the leftovers. */
  lemma {:induction false} SeriesLeaves(st: State, es: seq<Event>, source: SourceId, sid: SeriesId)
    requires IsSeries(es, source, sid) && MayBegin(st, es[0])
    ensures var start, end := SourceOf(st, source).blacklist, After(st, es, |es|);
            && sid !in end.openSeries
            && forall k :: Has(SourceOf(end, source).blacklist, k) <==> ListedAndValid(es, k) || Leftover(start, es, k)
  {
    ReadyAfter(st, es, |es| - 1, source, sid);
    LastMessageFinalizes(After(st, es, |es| - 1), SourceOf(st, source).blacklist, es, source, sid);
  }

  /** So the blacklist is then exactly what the series listed if and only if there were no leftovers. */
  lemma {:induction false} ReplacesBlacklistExactly(st: State, es: seq<Event>, source: SourceId, sid: SeriesId)
    requires IsSeries(es, source, sid) && MayBegin(st, es[0])
    ensures IsExactly(SourceOf(After(st, es, |es|), source).blacklist, es)
            <==> forall k :: !Leftover(SourceOf(st, source).blacklist, es, k)
  {
    SeriesLeaves(st, es, source, sid);
  }

  /** When no other series of the source is open, and none was interrupted, there are none. */
  lemma {:induction false} CompleteSeriesReplacesBlacklist(
      c: Current, st: State, es: seq<Event>, source: SourceId, sid: SeriesId)
    requires IsSeries(es, source, sid) && Tracks(c, st) && source !in c && MayBegin(st, es[0])
    ensures sid !in After(st, es, |es|).openSeries
    ensures IsExactly(SourceOf(After(st, es, |es|), source).blacklist, es)
  {
    assert FlagsMatch(SourceOf(st, source), CurrentOf(c, source));
    SeriesLeaves(st, es, source, sid);
  }

  // ---------------------------------------------------------------- restarts

  /** What a new process starts with: the stored blacklists, with their flags; no series is open. */
  function Restarted(sources: map<SourceId, Source>): State {
    State(sources, map[], map[], 0)
  }

  /** The keys that the open series of the source has brought, if one is open. */
  function BroughtSoFar(c: Current, source: SourceId): set<Key> {
    if source in c then c[source].1 else {}
  }

  /** The series lists all these keys of the blacklist, except for those expired by its last message. */
  ghost predicate ListsAll(es: seq<Event>, keys: set<Key>, d: Blacklist)
    requires es != []
  {
    forall k | k in keys && Has(d, k) ::
      LastExpiry(es, |es|, k).Some? || Get(d, k).expires < es[|es| - 1].blTime
  }

  /** After a restart with the blacklists of some state, the next series delivered as a whole replaces the
      blacklist if and only if it lists every key that the series open in that state had brought, except for
      those expired by then. */
  lemma {:induction false} SeriesAfterRestart(c: Current, st: State, es: seq<Event>, source: SourceId, sid: SeriesId)
    requires IsSeries(es, source, sid) && Tracks(c, st)
    requires SourceOf(st, source).time.Some? ==> SourceOf(st, source).time.value <= es[0].blTime
    ensures IsExactly(SourceOf(After(Restarted(st.sources), es, |es|), source).blacklist, es)
            <==> ListsAll(es, BroughtSoFar(c, source), SourceOf(st, source).blacklist)
  {
    var start := SourceOf(st, source).blacklist;
    assert FlagsMatch(SourceOf(st, source), CurrentOf(c, source));
    assert SourceOf(Restarted(st.sources), source) == SourceOf(st, source);
    ReplacesBlacklistExactly(Restarted(st.sources), es, source, sid);
    forall k
      ensures Leftover(start, es, k)
              <==> && k in BroughtSoFar(c, source) && LastExpiry(es, |es|, k).None?
                   && Get(start, k).expires >= es[|es| - 1].blTime
    {
    }
  }

  /** The first message of a series of two. */
  function HalfOfTwo(source: SourceId, sid: SeriesId, url: string): Event {
    Event(source, sid, 2, 1, 0, [], Some(url), None, None, 10)
  }

  /** A series of one message. */
  function Whole(source: SourceId, sid: SeriesId, url: string): Event {
    Event(source, sid, 1, 1, 1, [], Some(url), None, None, 10)
  }

  lemma HalfIsShown(source: SourceId, sid: SeriesId, url: string)
    ensures SourceOf(ProcessInput(INITIAL, HalfOfTwo(source, sid, url)).0, source)
            == Source(Some(0), [(Text(url), Entry([], [], 10, Some(sid)))])
  {
    OwnSource(INITIAL, HalfOfTwo(source, sid, url));
  }

  /** One message of a series, a restart, and a whole series that lists another key: the key of the
      interrupted series stays on the blacklist. */
  lemma InterruptedSeriesLeavesItsKey(source: SourceId, a: SeriesId, b: SeriesId, u: string, v: string)
    requires u != v
    ensures var st := ProcessInput(INITIAL, HalfOfTwo(source, a, u)).0;
            var end := ProcessInput(Restarted(st.sources), Whole(source, b, v)).0;
            && b !in end.openSeries
            && Has(SourceOf(end, source).blacklist, Text(u)) && Has(SourceOf(end, source).blacklist, Text(v))
  {
    var st := ProcessInput(INITIAL, HalfOfTwo(source, a, u)).0;
    var e := Whole(source, b, v);
    HalfIsShown(source, a, u);
    assert After(Restarted(st.sources), [e], 1) == ProcessInput(After(Restarted(st.sources), [e], 0), e).0;
    SeriesLeaves(Restarted(st.sources), [e], source, b);
    assert LastExpiry([e], 1, Text(v)) == Some(10) && LastExpiry([e], 1, Text(u)) == LastExpiry([e], 0, Text(u));
    assert Has(SourceOf(st, source).blacklist, Text(u));
  }

  // ---------------------------------------------------------------- every run, restarts included

  datatype Occurrence =
    | Ordinary(input: Input)
    | StopsAndStarts        // `stop()` stores the blacklists
    | CrashesAndStarts      // the new process finds those stored last

  /** What the process has in memory, and what it has stored. */
  datatype Lives = Lives(st: State, stored: map<SourceId, Source>)

  ghost predicate Possible(l: Lives, o: Occurrence) {
    o.Ordinary? ==> Enabled(l.st, o.input)
  }

  /** Finalizations and timeouts store the blacklists. */
  predicate Stores(st: State, i: Input) {
    i.TimerFires? || Completes(st, i.e)
  }

  function Occurs(l: Lives, o: Occurrence): Lives
    requires Possible(l, o)
  {
    match o
    case Ordinary(i) =>
      var st := Step(l.st, i);
      Lives(st, if Stores(l.st, i) then st.sources else l.stored)
    case StopsAndStarts => Lives(Restarted(l.st.sources), l.st.sources)
    case CrashesAndStarts => Lives(Restarted(l.stored), l.stored)
  }

  ghost predicate PossibleRun(l: Lives, os: seq<Occurrence>)
    decreases |os|
  {
    os == [] || (Possible(l, os[0]) && PossibleRun(Occurs(l, os[0]), os[1..]))
  }

  function AfterAll(l: Lives, os: seq<Occurrence>): Lives
    requires PossibleRun(l, os)
    decreases |os|
  {
    if os == [] then l else AfterAll(Occurs(l, os[0]), os[1..])
  }

  lemma {:induction false} AfterMore(l: Lives, os: seq<Occurrence>, o: Occurrence)
    requires PossibleRun(l, os) && Possible(AfterAll(l, os), o)
    ensures PossibleRun(l, os + [o]) && AfterAll(l, os + [o]) == Occurs(AfterAll(l, os), o)
    decreases |os|
  {
    if os == [] {
      assert os + [o] == [o];
    } else {
      AfterMore(Occurs(l, os[0]), os[1..], o);
      assert (os + [o])[1..] == os[1..] + [o];
    }
  }

  /** After any run, stopping and starting keeps every blacklist, with its flags, and forgets the open series; a
      crash right after that changes nothing more. */
  lemma StoppingKeepsBlacklists(os: seq<Occurrence>, source: SourceId)
    requires PossibleRun(Lives(INITIAL, map[]), os)
    ensures PossibleRun(Lives(INITIAL, map[]), os + [StopsAndStarts])
    ensures PossibleRun(Lives(INITIAL, map[]), os + [StopsAndStarts] + [CrashesAndStarts])
    ensures var before := AfterAll(Lives(INITIAL, map[]), os).st;
            var after := AfterAll(Lives(INITIAL, map[]), os + [StopsAndStarts]);
            && SourceOf(after.st, source) == SourceOf(before, source)
            && after.st.openSeries == map[] && after.st.timers == map[]
            && AfterAll(Lives(INITIAL, map[]), os + [StopsAndStarts] + [CrashesAndStarts]) == after
  {
    AfterMore(Lives(INITIAL, map[]), os, StopsAndStarts);
    AfterMore(Lives(INITIAL, map[]), os + [StopsAndStarts], CrashesAndStarts);
  }

  ghost predicate AllUnique(sources: map<SourceId, Source>) {
    forall s | s in sources :: Unique(sources[s].blacklist)
  }

  ghost predicate Consistent(l: Lives) {
    TimersMatch(l.st) && CountsMatch(l.st) && AllUnique(l.st.sources) && AllUnique(l.stored)
  }

  lemma EventKeepsUnique(s: Source, e: Event)
    requires Unique(s.blacklist)
    ensures Unique(ProcessEvent(s, e).0.blacklist)
  {
    if ProcessEvent(s, e).1.Ok? {
      StoreAt(s.blacklist, EventKey(e).value, e, EventKey(e).value);
    }
  }

  lemma MessageKeepsUnique(st: State, e: Event)
    requires AllUnique(st.sources)
    ensures AllUnique(ProcessInput(st, e).0.sources)
  {
    if IsMessageValid(st, e) {
      EventKeepsUnique(SourceOf(st, e.source), e);
      OwnSource(st, e);
      var s := ProcessEvent(SourceOf(st, e.source), e).0;
      if Completes(st, e) {
        DeletedUnique(s.blacklist, s.time.value);
      }
      forall x | x in ProcessInput(st, e).0.sources
        ensures Unique(SourceOf(ProcessInput(st, e).0, x).blacklist)
      {
        if x != e.source {
          OtherSources(st, e, x);
        }
      }
    }
  }

  lemma TimeoutKeepsUnique(st: State, t: TimerId)
    requires AllUnique(st.sources) && t in st.timers && st.timers[t].1 in st.openSeries
    ensures AllUnique(OnTimeout(st, t).sources)
  {
    var (source, sid) := st.timers[t];
    var d := SourceOf(st, source).blacklist;
    assert Unique(d);
    assert Unique(ClearFlags(d, sid));
  }

  lemma OccurrenceKeepsConsistent(l: Lives, o: Occurrence)
    requires Consistent(l) && Possible(l, o)
    ensures Consistent(Occurs(l, o))
  {
    if o.Ordinary? {
      match o.input {
        case Message(e) =>
          ProcessInputKeepsMatches(l.st, e);
          MessageKeepsUnique(l.st, e);
        case TimerFires(t) =>
          OnTimeoutKeepsMatches(l.st, t);
          TimeoutKeepsUnique(l.st, t);
      }
    }
  }

  lemma {:induction false} RunKeepsConsistent(l: Lives, os: seq<Occurrence>)
    requires Consistent(l) && PossibleRun(l, os)
    ensures Consistent(AfterAll(l, os))
    decreases |os|
  {
    if os != [] {
      OccurrenceKeepsConsistent(l, os[0]);
      RunKeepsConsistent(Occurs(l, os[0]), os[1..]);
    }
  }

  /** Over every run, however the series overlap and wherever the process stops, crashes and starts again:
      pending timers match the open series one to one, every open series has counted messages with numbers
      of their own, and no blacklist has a key twice. */
  lemma EveryRunMatches(os: seq<Occurrence>)
    requires PossibleRun(Lives(INITIAL, map[]), os)
    ensures var l := AfterAll(Lives(INITIAL, map[]), os);
            && TimersMatch(l.st) && CountsMatch(l.st)
            && forall s :: Unique(SourceOf(l.st, s).blacklist)
  {
    RunKeepsConsistent(Lives(INITIAL, map[]), os);
  }

  // ---------------------------------------------------------------- a crash after any disciplined run

  /** The present state and the one whose blacklists were stored last, each with what its open series had
      brought. */
  datatype Tracked = Tracked(c: Current, st: State, storedCurrent: Current, storedState: State)

  const START := Tracked(map[], INITIAL, map[], INITIAL)

  function TrackedStep(x: Tracked, i: Input): Tracked
    requires Enabled(x.st, i)
  {
    var c, st := StepCurrent(x.c, x.st, i), Step(x.st, i);
    if Stores(x.st, i) then Tracked(c, st, c, st) else x.(c := c, st := st)
  }

  function TrackedAfter(x: Tracked, inputs: seq<Input>): Tracked
    requires DisciplinedRun(x.c, x.st, inputs)
    decreases |inputs|
  {
    if inputs == [] then x else TrackedAfter(TrackedStep(x, inputs[0]), inputs[1..])
  }

  function Ordinaries(inputs: seq<Input>): seq<Occurrence> {
    if inputs == [] then [] else [Ordinary(inputs[0])] + Ordinaries(inputs[1..])
  }

  function LivesOf(x: Tracked): Lives {
    Lives(x.st, x.storedState.sources)
  }

  lemma {:induction false} TrackedRun(x: Tracked, inputs: seq<Input>)
    requires Tracks(x.c, x.st) && Tracks(x.storedCurrent, x.storedState) && DisciplinedRun(x.c, x.st, inputs)
    ensures var y := TrackedAfter(x, inputs); Tracks(y.c, y.st) && Tracks(y.storedCurrent, y.storedState)
    ensures PossibleRun(LivesOf(x), Ordinaries(inputs))
    ensures AfterAll(LivesOf(x), Ordinaries(inputs)) == LivesOf(TrackedAfter(x, inputs))
    decreases |inputs|
  {
    if inputs != [] {
      var y := TrackedStep(x, inputs[0]);
      StepKeepsTracking(x.c, x.st, inputs[0]);
      TrackedRun(y, inputs[1..]);
      assert Occurs(LivesOf(x), Ordinary(inputs[0])) == LivesOf(y);
      assert Ordinaries(inputs)[1..] == Ordinaries(inputs[1..]);
    }
  }

  /** After a crash, the same with the series that were open when the blacklists were stored last: the keys
      they had brought by then are the ones to be listed. */
  lemma {:induction false} SeriesAfterCrash(inputs: seq<Input>, es: seq<Event>, source: SourceId, sid: SeriesId)
    requires DisciplinedRun(map[], INITIAL, inputs) && IsSeries(es, source, sid)
    requires var s := SourceOf(TrackedAfter(START, inputs).storedState, source);
             s.time.Some? ==> s.time.value <= es[0].blTime
    ensures PossibleRun(Lives(INITIAL, map[]), Ordinaries(inputs))
    ensures var crashed := Occurs(AfterAll(Lives(INITIAL, map[]), Ordinaries(inputs)), CrashesAndStarts);
            var x := TrackedAfter(START, inputs);
            IsExactly(SourceOf(After(crashed.st, es, |es|), source).blacklist, es)
            <==> ListsAll(es, BroughtSoFar(x.storedCurrent, source), SourceOf(x.storedState, source).blacklist)
  {
    TrackedRun(START, inputs);
    var x := TrackedAfter(START, inputs);
    SeriesAfterRestart(x.storedCurrent, x.storedState, es, source, sid);
  }
}
