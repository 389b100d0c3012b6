/** The comparator on values: full blacklists, delivered in series of messages, become a stream of
    differences. */
module Comparison {
  import opened Options
  import opened OrderedDicts

  type Time = int
  type Id = string
  type Ip = string
  type SeriesId = string
  type SourceId = string
  type TimerId = nat

  /** A URL, else a domain name, else the addresses in order. */
  datatype Key = Text(s: string) | Ips(ips: multiset<Ip>)

  /** A message that passed `validate_bl_headers()`. */
  datatype Event = Event(
    source: SourceId,
    seriesId: SeriesId,
    total: int,
    no: int,
    blTime: Time,
    id: Id,
    url: Option<string>,
    fqdn: Option<string>,
    address: Option<seq<Ip>>,
    expires: Time)

  datatype Entry = Entry(id: Id, ips: seq<Ip>, expires: Time, flag: Option<SeriesId>)

  type Blacklist = Dict<Key, Entry>

  datatype Source = Source(time: Option<Time>, blacklist: Blacklist)

  datatype Published =
    | New(id: Id, expires: Time, ips: seq<Ip>)
    | Change(id: Id, expires: Time, ips: seq<Ip>, replaced: Id)
    | Update(id: Id, expires: Time, ips: seq<Ip>)
    | Delist(id: Id)
    | Expire(id: Id)

  // ---------------------------------------------------------------- one source

  /** `get_event_key()` */
  function EventKey(e: Event): Option<Key> {
    if e.url.Some? then Some(Text(e.url.value))
    else if e.fqdn.Some? then Some(Text(e.fqdn.value))
    else if e.address.Some? then Some(Ips(multiset(e.address.value)))
    else None
  }

  function IpsOf(e: Event): seq<Ip> {
    if e.address.Some? then e.address.value else []
  }

  /** Comparing sorted lists is comparing multisets. */
  predicate AreIpsDifferent(old_: seq<Ip>, new_: seq<Ip>) {
    multiset(old_) != multiset(new_)
  }

  datatype EventError = OutOfOrder | NoKey

  function Fresh(e: Event): Entry {
    Entry(e.id, IpsOf(e), e.expires, Some(e.seriesId))
  }

  /** What an accepted event does under its key. */
  function Store(d: Blacklist, k: Key, e: Event): (Blacklist, Option<Published>) {
    if !Has(d, k) then (Put(d, k, Fresh(e)), Some(New(e.id, e.expires, IpsOf(e))))
    else
      var old_ := Get(d, k);
      if AreIpsDifferent(old_.ips, IpsOf(e)) then
        (Put(d, k, Fresh(e)), Some(Change(e.id, e.expires, IpsOf(e), old_.id)))
      else if e.expires != old_.expires then
        (Put(d, k, old_.(expires := e.expires, flag := Some(e.seriesId))), Some(Update(old_.id, e.expires, old_.ips)))
      else (Put(d, k, old_.(flag := Some(e.seriesId))), None)
  }

  function CurrentTime(s: Source, e: Event): Time {
    if s.time.None? then e.blTime else s.time.value
  }

  /** `SourceData.process_event()` and, after it, `update_time()`; the time may be set even on an error. */
  function ProcessEvent(s: Source, e: Event): (Source, Result<Option<Published>, EventError>) {
    var time := CurrentTime(s, e);
    var s0 := s.(time := Some(time));
    if e.blTime < time then (s0, Err(OutOfOrder))
    else if EventKey(e).None? then (s0, Err(NoKey))
    else
      var (d, p) := Store(s.blacklist, EventKey(e).value, e);
      (Source(Some(e.blTime), d), Ok(p))
  }

  // ---- what an event does, case by case

  /** The key: the URL if there is one, else the domain name, else the addresses in any order. */
  lemma KeyExactly(e: Event)
    ensures EventKey(e).None? <==> e.url.None? && e.fqdn.None? && e.address.None?
    ensures forall x :: EventKey(e) == Some(Text(x))
                        <==> e.url == Some(x) || (e.url.None? && e.fqdn == Some(x))
    ensures forall m :: EventKey(e) == Some(Ips(m))
                        <==> e.url.None? && e.fqdn.None? && e.address.Some? && multiset(e.address.value) == m
  {
  }

  /** An event is refused if and only if it is older than the source's time or has nothing to make a key of;
      then the blacklist stays as it is, and the source's time is set if it was not. */
  lemma RefusesExactly(s: Source, e: Event)
    ensures var (s', r) := ProcessEvent(s, e);
            && (r == Err(OutOfOrder) <==> s.time.Some? && e.blTime < s.time.value)
            && (r == Err(NoKey) <==> (s.time.Some? ==> s.time.value <= e.blTime) && EventKey(e).None?)
            && (r.Err? ==> s'.blacklist == s.blacklist && (s.time.Some? ==> s'.time == s.time)
                           && (s.time.None? ==> s'.time == Some(e.blTime)))
            && (r.Ok? ==> s'.time == Some(e.blTime))
  {
  }

  /** The same addresses as before, under the same key? */
  predicate SameAddresses(d: Blacklist, k: Key, e: Event) {
    Has(d, k) && multiset(Get(d, k).ips) == multiset(IpsOf(e))
  }

  /** An accepted event makes the entry under its key show it: an entry with the same addresses keeps its id,
      any other gets the event's; other keys keep their entries. */
  lemma EntryExactly(s: Source, e: Event, x: Key)
    requires Unique(s.blacklist) && ProcessEvent(s, e).1.Ok?
    ensures var k, d, d' := EventKey(e).value, s.blacklist, ProcessEvent(s, e).0.blacklist;
            && (x != k ==> (Has(d', x) <==> Has(d, x)) && (Has(d, x) ==> Get(d', x) == Get(d, x)))
            && Has(d', k)
            && Get(d', k).id == (if SameAddresses(d, k, e) then Get(d, k).id else e.id)
            && Get(d', k).expires == e.expires && Get(d', k).flag == Some(e.seriesId)
            && (e.address.None? ==> Get(d', k).ips == [])
            && (e.address.Some? ==> multiset(Get(d', k).ips) == multiset(e.address.value))
  {
    var k, d' := EventKey(e).value, ProcessEvent(s, e).0.blacklist;
    if x != k {
      PutOther(s.blacklist, k, Get(d', k), x);
    }
  }

  /** What an accepted event is published as: new when its key is not on the blacklist, a change when the
      addresses differ, an update when the expiry time alone does, and nothing when neither does.  The message
      carries the entry as it then is; a change names the entry it takes the place of. */
  lemma PublishesExactly(s: Source, e: Event)
    requires ProcessEvent(s, e).1.Ok?
    ensures var k, d, p := EventKey(e).value, s.blacklist, ProcessEvent(s, e).1.value;
            var entry := Get(ProcessEvent(s, e).0.blacklist, k);
            && (p.Some? && p.value.New? <==> !Has(d, k))
            && (p.Some? && p.value.Change? <==> Has(d, k) && !SameAddresses(d, k, e))
            && (p.Some? && p.value.Update? <==> SameAddresses(d, k, e) && Get(d, k).expires != e.expires)
            && (p.None? <==> SameAddresses(d, k, e) && Get(d, k).expires == e.expires)
            && (p.Some? ==> p.value.New? || p.value.Change? || p.value.Update?)
            && (p.Some? ==> p.value.id == entry.id && p.value.expires == entry.expires && p.value.ips == entry.ips)
            && (p.Some? && p.value.Change? ==> p.value.replaced == Get(d, k).id)
  {
  }

  /** Does an entry outlive the finalization? */
  predicate Stays(e: Entry, time: Time) {
    e.flag.Some? && e.expires >= time
  }

  function Unflagged(e: Entry): Entry {
    e.(flag := None)
  }

  function Removal(e: Entry): Published {
    if e.flag.None? then Delist(e.id) else Expire(e.id)
  }

  /** `SourceData.process_deleted()` */
  function ProcessDeleted(d: Blacklist, time: Time): (Blacklist, seq<Published>) {
    if d == [] then ([], [])
    else
      var (rest, ps) := ProcessDeleted(d[1..], time);
      if Stays(d[0].1, time) then ([(d[0].0, Unflagged(d[0].1))] + rest, ps)
      else (rest, [Removal(d[0].1)] + ps)
  }

  /** `SourceData.clear_flags()` */
  function ClearFlags(d: Blacklist, flag: SeriesId): (r: Blacklist)
    ensures |r| == |d| && forall i | 0 <= i < |d| :: r[i].0 == d[i].0
  {
    if d == [] then []
    else [(d[0].0, if d[0].1.flag == Some(flag) then Unflagged(d[0].1) else d[0].1)] + ClearFlags(d[1..], flag)
  }

  // ---------------------------------------------------------------- series and timers

  datatype Series = Series(total: int, count: nat, nums: seq<int>, timer: Option<TimerId>)

  datatype State = State(
    sources: map<SourceId, Source>,
    openSeries: map<SeriesId, Series>,
    timers: map<TimerId, (SourceId, SeriesId)>,
    nextTimer: TimerId)

  function SourceOf(st: State, source: SourceId): Source {
    if source in st.sources then st.sources[source] else Source(None, [])
  }

  /** `is_message_valid()` */
  predicate IsMessageValid(st: State, e: Event) {
    e.seriesId in st.openSeries ==>
      var s := st.openSeries[e.seriesId];
      e.total == s.total && e.no !in s.nums && s.count + 1 <= s.total
  }

  /** `update_series()` */
  function UpdatedSeries(st: State, e: Event): Series {
    var s := if e.seriesId in st.openSeries then st.openSeries[e.seriesId] else Series(e.total, 0, [], None);
    s.(count := s.count + 1, nums := s.nums + [e.no])
  }

  /** `remove_timeout()` */
  function WithoutTimer(timers: map<TimerId, (SourceId, SeriesId)>, t: Option<TimerId>)
    : map<TimerId, (SourceId, SeriesId)>
  {
    if t.Some? then timers - {t.value} else timers
  }

  /** `update_series()` and `set_timeout()` */
  function Counted(st: State, e: Event): State {
    var s := UpdatedSeries(st, e);
    st.(openSeries := st.openSeries[e.seriesId := s.(timer := Some(st.nextTimer))],
        timers := WithoutTimer(st.timers, s.timer)[st.nextTimer := (e.source, e.seriesId)],
        nextTimer := st.nextTimer + 1)
  }

  /** `finalize_series()` */
  function Finalize(st: State, sid: SeriesId, source: SourceId): (State, seq<Published>)
    requires sid in st.openSeries
  {
    var s := SourceOf(st, source);
    var (d, ps) := ProcessDeleted(s.blacklist, if s.time.Some? then s.time.value else 0);
    (st.(sources := st.sources[source := s.(blacklist := d)],
         openSeries := st.openSeries - {sid},
         timers := WithoutTimer(st.timers, st.openSeries[sid].timer)),
     ps)
  }

  function OptionToSeq<T>(o: Option<T>): seq<T> {
    if o.Some? then [o.value] else []
  }

  predicate IsComplete(s: Series) {
    s.total == s.count
  }

  datatype MessageError = InvalidForSeries | Failed(error: EventError)

  /** `_process_input()` */
  function ProcessInput(st: State, e: Event): (State, seq<Published>, Option<MessageError>) {
    if !IsMessageValid(st, e) then (st, [], Some(InvalidForSeries))
    else
      var st1 := Counted(st, e);
      var (s, r) := ProcessEvent(SourceOf(st, e.source), e);
      var st2 := st1.(sources := st.sources[e.source := s]);
      if r.Err? then (st2, [], Some(Failed(r.error)))
      else if IsComplete(st2.openSeries[e.seriesId]) then
        var (st3, ps) := Finalize(st2, e.seriesId, e.source);
        (st3, OptionToSeq(r.value) + ps, None)
      else (st2, OptionToSeq(r.value), None)
  }

  /** `on_series_timeout()` of a timer that goes off. */
  function OnTimeout(st: State, t: TimerId): State
    requires t in st.timers && st.timers[t].1 in st.openSeries
  {
    var (source, sid) := st.timers[t];
    var s := SourceOf(st, source);
    State(st.sources[source := s.(blacklist := ClearFlags(s.blacklist, sid))],
          st.openSeries - {sid}, st.timers - {t}, st.nextTimer)
  }

  const INITIAL := State(map[], map[], map[], 0)

  // ---------------------------------------------------------------- timers and counts, on every run

  /** Pending timers and open series correspond one to one. */
  ghost predicate TimersMatch(st: State) {
    && (forall sid | sid in st.openSeries ::
          && st.openSeries[sid].timer.Some? && st.openSeries[sid].timer.value in st.timers
          && st.timers[st.openSeries[sid].timer.value].1 == sid)
    && (forall t | t in st.timers ::
          && t < st.nextTimer && st.timers[t].1 in st.openSeries
          && st.openSeries[st.timers[t].1].timer == Some(t))
  }

  ghost predicate Distinct(s: seq<int>) {
    forall i, j | 0 <= i < j < |s| :: s[i] != s[j]
  }

  /** Every message counted in an open series had a number of its own; none is counted beyond the total. */
  ghost predicate CountsMatch(st: State) {
    forall sid | sid in st.openSeries ::
      var s := st.openSeries[sid];
      s.count == |s.nums| >= 1 && Distinct(s.nums) && (s.count > 1 ==> s.count <= s.total)
  }

  lemma CountedKeepsTimers(st: State, e: Event)
    requires TimersMatch(st)
    ensures TimersMatch(Counted(st, e))
  {
  }

  lemma CountedKeepsCounts(st: State, e: Event)
    requires CountsMatch(st) && IsMessageValid(st, e)
    ensures CountsMatch(Counted(st, e))
  {
    var s := UpdatedSeries(st, e);
    assert Distinct(s.nums);
  }

  lemma CountedKeepsMatches(st: State, e: Event)
    requires TimersMatch(st) && CountsMatch(st) && IsMessageValid(st, e)
    ensures TimersMatch(Counted(st, e)) && CountsMatch(Counted(st, e))
  {
    CountedKeepsTimers(st, e);
    CountedKeepsCounts(st, e);
  }

  lemma FinalizeKeepsMatches(st: State, sid: SeriesId, source: SourceId)
    requires TimersMatch(st) && CountsMatch(st) && sid in st.openSeries
    ensures TimersMatch(Finalize(st, sid, source).0) && CountsMatch(Finalize(st, sid, source).0)
  {
  }

  /** No message, accepted, refused or failing, breaks the correspondence. */
  lemma ProcessInputKeepsMatches(st: State, e: Event)
    requires TimersMatch(st) && CountsMatch(st)
    ensures TimersMatch(ProcessInput(st, e).0) && CountsMatch(ProcessInput(st, e).0)
  {
    if IsMessageValid(st, e) {
      CountedKeepsMatches(st, e);
      var st2 := Counted(st, e).(sources := st.sources[e.source := ProcessEvent(SourceOf(st, e.source), e).0]);
      assert TimersMatch(st2) && CountsMatch(st2);
      FinalizeKeepsMatches(st2, e.seriesId, e.source);
    }
  }

  lemma OnTimeoutKeepsMatches(st: State, t: TimerId)
    requires TimersMatch(st) && CountsMatch(st) && t in st.timers
    ensures TimersMatch(OnTimeout(st, t)) && CountsMatch(OnTimeout(st, t))
  {
  }

  function SetOf(s: seq<int>): set<int> {
    set x | x in s
  }

  lemma {:induction false} DistinctCount(s: seq<int>)
    requires Distinct(s)
    ensures |SetOf(s)| == |s|
  {
    if s != [] {
      var n := |s| - 1;
      DistinctCount(s[..n]);
      assert SetOf(s) == SetOf(s[..n]) + {s[n]};
      assert s[n] !in s[..n];
    }
  }

  /** Whatever came before, a series is finalized only by the message that makes it `total` different
      message numbers. */
  lemma CompletesAfterTotalDistinctNumbers(st: State, e: Event)
    requires TimersMatch(st) && CountsMatch(st)
    requires IsMessageValid(st, e) && ProcessInput(st, e).2.None? && e.seriesId !in ProcessInput(st, e).0.openSeries
    ensures var nums := UpdatedSeries(st, e).nums;
            e.no in nums && |nums| == e.total && |SetOf(nums)| == e.total
  {
    CountedKeepsMatches(st, e);
    DistinctCount(UpdatedSeries(st, e).nums);
  }

  // ---------------------------------------------------------------- finalization keeps what was seen

  /** Where an entry of the finalized blacklist comes from. */
  lemma {:induction false} DeletedHas(d: Blacklist, time: Time, k: Key)
    requires Unique(d)
    ensures Has(ProcessDeleted(d, time).0, k) <==> Has(d, k) && Stays(Get(d, k), time)
    ensures Has(ProcessDeleted(d, time).0, k) ==> Get(ProcessDeleted(d, time).0, k) == Unflagged(Get(d, k))
  {
    if d != [] {
      var rest := ProcessDeleted(d[1..], time).0;
      DeletedHas(d[1..], time, k);
      if d[0].0 == k {
        assert !Has(d[1..], k);
        if Stays(d[0].1, time) {
          assert ProcessDeleted(d, time).0[0] == (k, Unflagged(d[0].1));
        }
      } else if Stays(d[0].1, time) {
        var r := ProcessDeleted(d, time).0;
        assert r[0].0 == d[0].0 && r[1..] == rest;
      }
    }
  }

  lemma {:induction false} DeletedUnique(d: Blacklist, time: Time)
    requires Unique(d)
    ensures Unique(ProcessDeleted(d, time).0)
    ensures forall i | 0 <= i < |ProcessDeleted(d, time).0| ::
              exists j :: 0 <= j < |d| && d[j].0 == ProcessDeleted(d, time).0[i].0
  {
    if d != [] {
      DeletedUnique(d[1..], time);
      var rest := ProcessDeleted(d[1..], time).0;
      forall i | 0 <= i < |rest|
        ensures exists j :: 1 <= j < |d| && d[j].0 == rest[i].0
      {
        var j :| 0 <= j < |d[1..]| && d[1..][j].0 == rest[i].0;
        assert d[j + 1].0 == rest[i].0;
      }
    }
  }

  lemma {:induction false} ClearedHas(d: Blacklist, flag: SeriesId, k: Key)
    ensures Index(ClearFlags(d, flag), k) == Index(d, k)
    ensures Has(d, k) ==> Get(ClearFlags(d, flag), k)
                          == if Get(d, k).flag == Some(flag) then Unflagged(Get(d, k)) else Get(d, k)
  {
    if d != [] && d[0].0 != k {
      ClearedHas(d[1..], flag, k);
      assert ClearFlags(d, flag)[1..] == ClearFlags(d[1..], flag);
    }
  }
}
