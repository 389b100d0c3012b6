/** How the aggregator groups the events of one source, as operations on values. */
module Aggregation {
  import opened Options
  import opened OrderedDicts

  type Time = int      // seconds

  const HOUR := 3600
  const DAY := 24 * HOUR
  const AGGREGATE_WAIT := 12 * HOUR

  function Date(t: Time): int {
    t / DAY
  }

  type Key = string

  /** One group of aggregated events. */
  datatype Group = Group(first: Time, until: Time, count: nat)

  type Groups = Dict<Key, Group>

  datatype Source = Source(time: Option<Time>, tolerance: Time, groups: Groups, buffer: Groups)

  /** What a call did: the new state, the groups it yielded, and those it overwrote in the buffer. */
  datatype Effect = Effect(source: Source, isNew: bool, yielded: seq<Group>, replaced: seq<Group>)

  function Max(a: Time, b: Time): Time {
    if a < b then b else a
  }

  /** Storing a group in the buffer, and what that overwrites. */
  function Overwritten(buffer: Groups, k: Key): seq<Group> {
    if Has(buffer, k) then [Get(buffer, k)] else []
  }

  function Counted(g: Group): Group {
    g.(count := g.count + 1)
  }

  /** An event older than the tolerance: counted only in a group that started before it. */
  function LateEvent(s: Source, k: Key, t: Time): Result<Effect, Source> {
    if !Has(s.groups, k) || Get(s.groups, k).first > t then Err(s)
    else
      var g := Get(s.groups, k);
      Ok(Effect(s.(groups := Put(s.groups, k, Counted(g.(until := Max(g.until, t))))), false, [], []))
  }

  /** An event of no present group: counted in the buffer if it is a little late, else a new group. */
  function UnknownEvent(s: Source, time: Time, k: Key, t: Time): Effect {
    if t < time && Has(s.buffer, k) then
      Effect(s.(buffer := Put(s.buffer, k, Counted(Get(s.buffer, k)))), false, [], [])
    else
      Effect(s.(groups := s.groups + [(k, Group(t, t, 1))], time := Some(Max(time, t))), true, [], [])
  }

  /** An event of a present group: after 12 hours of silence, or on a new day, the group moves to the
      buffer and a new one starts. */
  function KnownEvent(s: Source, time: Time, k: Key, t: Time): Effect
    requires Has(s.groups, k)
  {
    var g := Get(s.groups, k);
    if t > g.until + AGGREGATE_WAIT || Date(t) > Date(time) then
      var groups, buffer := PutLast(s.groups, k, Group(t, t, 1)), Put(s.buffer, k, g);
      Effect(s.(groups := groups, buffer := buffer, time := Some(Max(time, t))),
             true, [], Overwritten(s.buffer, k))
    else
      Effect(s.(groups := PutLast(s.groups, k, Counted(g.(until := Max(g.until, t)))), time := Some(Max(time, t))),
             false, [], [])
  }

  /** `SourceData.process_event()`; `Err` is an event out of order. */
  function ProcessEvent(s: Source, k: Key, t: Time): Result<Effect, Source> {
    var time := if s.time == None then t else s.time.value;
    var s0 := s.(time := Some(time));
    if t + s.tolerance < time then LateEvent(s0, k, t)
    else if Has(s.groups, k) then Ok(KnownEvent(s0, time, k, t))
    else Ok(UnknownEvent(s0, time, k, t))
  }

  /** How many groups the scan of `generate_suppressed_events()` takes off the front. */
  function Scan(groups: Groups, time: Time, checked: bool): (n: nat)
    ensures n <= |groups|
  {
    if groups == [] then 0
    else
      var until := groups[0].1.until;
      var checked' := checked || until >= time - AGGREGATE_WAIT;
      if checked' && Date(until) == Date(time) then 0 else 1 + Scan(groups[1..], time, checked')
  }

  function AllOverwritten(buffer: Groups, items: Groups): seq<Group>
    decreases |items|
  {
    if items == [] then []
    else Overwritten(buffer, items[0].0) + AllOverwritten(Put(buffer, items[0].0, items[0].1), items[1..])
  }

  /** How many groups `_generate_suppressed_events_from_buffer()` yields off the front. */
  function Ripe(buffer: Groups, cutoff: Time): (n: nat)
    ensures n <= |buffer|
  {
    if buffer == [] || buffer[0].1.until >= cutoff then 0 else 1 + Ripe(buffer[1..], cutoff)
  }

  function Values(d: Groups): (r: seq<Group>)
    ensures |r| == |d|
  {
    if d == [] then [] else [d[0].1] + Values(d[1..])
  }

  /** `SourceData.generate_suppressed_events()`, consumed to its end. */
  function GenerateSuppressed(s: Source): Effect
    requires s.time.Some?
  {
    var time := s.time.value;
    var n := Scan(s.groups, time, false);
    var buffer := PutAll(s.buffer, s.groups[..n]);
    var m := Ripe(buffer, time - s.tolerance);
    Effect(s.(groups := s.groups[n..], buffer := buffer[m..]), false,
           Values(buffer[..m]), AllOverwritten(s.buffer, s.groups[..n]))
  }

  /** `SourceData.generate_suppressed_events_after_inactive()` */
  function GenerateAfterInactive(s: Source): Effect {
    Effect(s.(groups := [], buffer := []), false, Values(s.buffer) + Values(s.groups), [])
  }

  /** `Aggregator.process_event()`: an accepted event lets the source generate suppressed events. */
  function Accept(s: Source, k: Key, t: Time): Result<Effect, Source> {
    match ProcessEvent(s, k, t)
    case Err(s') => Err(s')
    case Ok(e) =>
      TimeIsSet(s, k, t);
      var g := GenerateSuppressed(e.source);
      Ok(Effect(g.source, e.isNew, e.yielded + g.yielded, e.replaced + g.replaced))
  }

  lemma TimeIsSet(s: Source, k: Key, t: Time)
    ensures ProcessEvent(s, k, t).Ok? ==> ProcessEvent(s, k, t).value.source.time.Some?
  {
  }

  // ---------------------------------------------------------------- conservation

  function Sum(gs: seq<Group>): nat {
    if gs == [] then 0 else gs[0].count + Sum(gs[1..])
  }

  function Held(s: Source): nat {
    Sum(Values(s.groups)) + Sum(Values(s.buffer))
  }

  function Alive(s: Source): nat {
    |s.groups| + |s.buffer|
  }

  ghost predicate WellFormed(s: Source) {
    Unique(s.groups) && Unique(s.buffer)
  }

  lemma {:induction false} SumAppend(a: seq<Group>, b: seq<Group>)
    ensures Sum(a + b) == Sum(a) + Sum(b)
  {
    if a == [] {
      assert a + b == b;
    } else {
      SumAppend(a[1..], b);
      assert (a + b)[1..] == a[1..] + b;
    }
  }

  lemma {:induction false} ValuesAppend(a: Groups, b: Groups)
    ensures Values(a + b) == Values(a) + Values(b)
  {
    if a == [] {
      assert a + b == b;
    } else {
      assert Values(a + b) == [a[0].1] + Values(a[1..] + b) by {
        assert (a + b)[0] == a[0] && (a + b)[1..] == a[1..] + b;
      }
      ValuesAppend(a[1..], b);
    }
  }

  lemma SumSplit(d: Groups, i: nat)
    requires i <= |d|
    ensures Sum(Values(d)) == Sum(Values(d[..i])) + Sum(Values(d[i..]))
  {
    assert d == d[..i] + d[i..];
    ValuesAppend(d[..i], d[i..]);
    SumAppend(Values(d[..i]), Values(d[i..]));
  }

  lemma SumAt(d: Groups, i: nat)
    requires i < |d|
    ensures Sum(Values(d)) == Sum(Values(d[..i])) + d[i].1.count + Sum(Values(d[i + 1..]))
  {
    SumSplit(d, i);
    assert d[i..][0] == d[i] && d[i..][1..] == d[i + 1..];
  }

  /** Storing adds the new count and takes the overwritten one away. */
  lemma SumPut(d: Groups, k: Key, g: Group)
    ensures Sum(Values(Put(d, k, g))) + Sum(Overwritten(d, k)) == Sum(Values(d)) + g.count
    ensures |Put(d, k, g)| + |Overwritten(d, k)| == |d| + 1
  {
    var i := Index(d, k);
    if Has(d, k) {
      SumAt(d, i);
      SumAt(Put(d, k, g), i);
      assert Put(d, k, g)[..i] == d[..i] && Put(d, k, g)[i + 1..] == d[i + 1..];
      assert Sum([d[i].1]) == d[i].1.count + Sum([]);
    } else {
      SumAt(d + [(k, g)], |d|);
      assert (d + [(k, g)])[..|d|] == d;
    }
  }

  lemma SumPutLast(d: Groups, k: Key, g: Group)
    requires Has(d, k)
    ensures Sum(Values(PutLast(d, k, g))) + Get(d, k).count == Sum(Values(d)) + g.count
    ensures |PutLast(d, k, g)| == |d|
  {
    var i := Index(d, k);
    SumAt(d, i);
    var rest := Drop(d, i);
    SumSplit(rest, i);
    assert rest[..i] == d[..i] && rest[i..] == d[i + 1..];
    SumAt(rest + [(k, g)], |rest|);
    assert (rest + [(k, g)])[..|rest|] == rest && (rest + [(k, g)])[|rest| + 1..] == [];
  }

  lemma {:induction false} SumPutAll(buffer: Groups, items: Groups)
    ensures Sum(Values(PutAll(buffer, items))) + Sum(AllOverwritten(buffer, items))
            == Sum(Values(buffer)) + Sum(Values(items))
    ensures |PutAll(buffer, items)| + |AllOverwritten(buffer, items)| == |buffer| + |items|
    decreases |items|
  {
    if items != [] {
      var (k, g) := items[0];
      SumPut(buffer, k, g);
      SumPutAll(Put(buffer, k, g), items[1..]);
      SumAppend(Overwritten(buffer, k), AllOverwritten(Put(buffer, k, g), items[1..]));
    }
  }

  lemma SumOverwritten(d: Groups, k: Key)
    requires Has(d, k)
    ensures Sum(Overwritten(d, k)) == Get(d, k).count && |Overwritten(d, k)| == 1
  {
    assert Sum([Get(d, k)]) == Get(d, k).count + Sum([]);
  }

  /** What a single event does to the balance. */
  ghost predicate Balances(s: Source, e: Effect) {
    && WellFormed(e.source) && e.yielded == [] && e.source.tolerance == s.tolerance
    && Held(e.source) + Sum(e.replaced) == Held(s) + 1
    && Alive(e.source) + |e.replaced| == Alive(s) + if e.isNew then 1 else 0
  }

  lemma LateEventBalances(s: Source, k: Key, t: Time)
    requires WellFormed(s)
    ensures LateEvent(s, k, t).Ok? ==> Balances(s, LateEvent(s, k, t).value)
  {
    if Has(s.groups, k) {
      var g := Get(s.groups, k);
      SumPut(s.groups, k, Counted(g.(until := Max(g.until, t))));
      SumOverwritten(s.groups, k);
    }
  }

  lemma UnknownEventBalances(s: Source, time: Time, k: Key, t: Time)
    requires WellFormed(s) && !Has(s.groups, k)
    ensures Balances(s, UnknownEvent(s, time, k, t))
  {
    SumPut(s.groups, k, Group(t, t, 1));
    assert Put(s.groups, k, Group(t, t, 1)) == s.groups + [(k, Group(t, t, 1))];
    if Has(s.buffer, k) {
      SumPut(s.buffer, k, Counted(Get(s.buffer, k)));
      SumOverwritten(s.buffer, k);
    }
  }

  lemma KnownEventBalances(s: Source, time: Time, k: Key, t: Time)
    requires WellFormed(s) && Has(s.groups, k)
    ensures Balances(s, KnownEvent(s, time, k, t))
  {
    var g := Get(s.groups, k);
    SumPutLast(s.groups, k, Counted(g.(until := Max(g.until, t))));
    SumPutLast(s.groups, k, Group(t, t, 1));
    SumPut(s.buffer, k, g);
  }

  /** One accepted event: counts and groups balance, replaced ones included, and an event out of order
      changes neither. */
  lemma ProcessEventBalances(s: Source, k: Key, t: Time)
    requires WellFormed(s)
    ensures match ProcessEvent(s, k, t)
            case Err(s') => s' == s.(time := s'.time)
            case Ok(e) => Balances(s, e)
  {
    var time := if s.time == None then t else s.time.value;
    var s0 := s.(time := Some(time));
    LateEventBalances(s0, k, t);
    if Has(s.groups, k) {
      KnownEventBalances(s0, time, k, t);
    } else {
      UnknownEventBalances(s0, time, k, t);
    }
  }

  lemma {:induction false} PutAllUnique(buffer: Groups, items: Groups)
    requires Unique(buffer)
    ensures Unique(PutAll(buffer, items))
    decreases |items|
  {
    if items != [] {
      PutAllUnique(Put(buffer, items[0].0, items[0].1), items[1..]);
    }
  }

  lemma UniqueParts(d: Groups, i: nat)
    requires Unique(d) && i <= |d|
    ensures Unique(d[i..])
  {
  }

  lemma GenerateKeepsUnique(s: Source)
    requires WellFormed(s) && s.time.Some?
    ensures WellFormed(GenerateSuppressed(s).source)
  {
    var n := Scan(s.groups, s.time.value, false);
    UniqueParts(s.groups, n);
    PutAllUnique(s.buffer, s.groups[..n]);
    var buffer := PutAll(s.buffer, s.groups[..n]);
    UniqueParts(buffer, Ripe(buffer, s.time.value - s.tolerance));
  }

  /** Moving `n` groups to the buffer and yielding `m` of what it then holds. */
  lemma MovingBalances(groups: Groups, buffer0: Groups, n: nat, m: nat)
    requires n <= |groups| && m <= |PutAll(buffer0, groups[..n])|
    ensures var buffer, replaced := PutAll(buffer0, groups[..n]), AllOverwritten(buffer0, groups[..n]);
            && Sum(Values(groups[n..])) + Sum(Values(buffer[m..])) + Sum(Values(buffer[..m])) + Sum(replaced)
               == Sum(Values(groups)) + Sum(Values(buffer0))
            && |groups| - n + |buffer| + |replaced| == |groups| + |buffer0|
  {
    SumSplit(groups, n);
    SumPutAll(buffer0, groups[..n]);
    SumSplit(PutAll(buffer0, groups[..n]), m);
  }

  /** What generating leaves and gives, piece by piece. */
  lemma GeneratedPieces(s: Source, n: nat, m: nat)
    requires s.time.Some? && n == Scan(s.groups, s.time.value, false)
    requires m == Ripe(PutAll(s.buffer, s.groups[..n]), s.time.value - s.tolerance)
    ensures var e, buffer := GenerateSuppressed(s), PutAll(s.buffer, s.groups[..n]);
            && e.source.groups == s.groups[n..] && e.source.buffer == buffer[m..]
            && e.yielded == Values(buffer[..m]) && e.replaced == AllOverwritten(s.buffer, s.groups[..n])
  {
  }

  lemma GenerateBalances(s: Source)
    requires s.time.Some?
    ensures var e := GenerateSuppressed(s);
            && Held(e.source) + Sum(e.yielded) + Sum(e.replaced) == Held(s)
            && Alive(e.source) + |e.yielded| + |e.replaced| == Alive(s)
  {
    var n := Scan(s.groups, s.time.value, false);
    var m := Ripe(PutAll(s.buffer, s.groups[..n]), s.time.value - s.tolerance);
    var e := GenerateSuppressed(s);
    GeneratedPieces(s, n, m);
    assert Held(e.source) + Sum(e.yielded) + Sum(e.replaced) == Held(s) by {
      MovingBalances(s.groups, s.buffer, n, m);
    }
    assert Alive(e.source) + |e.yielded| + |e.replaced| == Alive(s) by {
      MovingBalances(s.groups, s.buffer, n, m);
    }
  }

  // ---------------------------------------------------------------- runs

  datatype Input = Event(key: Key, time: Time) | Inactive

  /** The history of a run: events accepted, True results, groups yielded and groups overwritten. */
  datatype Ledger = Ledger(accepted: nat, news: nat, yielded: seq<Group>, replaced: seq<Group>)

  function Run(s: Source, inputs: seq<Input>, l: Ledger): (Source, Ledger)
    decreases |inputs|
  {
    if inputs == [] then (s, l)
    else
      match inputs[0]
      case Inactive =>
        var e := GenerateAfterInactive(s);
        Run(e.source, inputs[1..], l.(yielded := l.yielded + e.yielded))
      case Event(k, t) =>
        match Accept(s, k, t)
        case Err(s') => Run(s', inputs[1..], l)
        case Ok(e) => Run(e.source, inputs[1..], Booked(l, e))
  }

  function Booked(l: Ledger, e: Effect): Ledger {
    Ledger(l.accepted + 1, l.news + (if e.isNew then 1 else 0), l.yielded + e.yielded, l.replaced + e.replaced)
  }

  ghost predicate Balanced(s: Source, l: Ledger) {
    && WellFormed(s)
    && l.accepted == Held(s) + Sum(l.yielded) + Sum(l.replaced)
    && l.news == Alive(s) + |l.yielded| + |l.replaced|
  }

  lemma AcceptKeepsBalance(s: Source, k: Key, t: Time, l: Ledger)
    requires Balanced(s, l)
    ensures match Accept(s, k, t)
            case Err(s') => Balanced(s', l)
            case Ok(e) => Balanced(e.source, Booked(l, e))
  {
    ProcessEventBalances(s, k, t);
    if ProcessEvent(s, k, t).Ok? {
      var e := ProcessEvent(s, k, t).value;
      TimeIsSet(s, k, t);
      var g := GenerateSuppressed(e.source);
      GenerateBalances(e.source);
      GenerateKeepsUnique(e.source);
      assert e.yielded + g.yielded == g.yielded;
      SumAppend(e.replaced, g.replaced);
      SumAppend(l.yielded, g.yielded);
      SumAppend(l.replaced, e.replaced + g.replaced);
    }
  }

  /** Over any run of one source, in any order of times: every accepted event is counted in exactly one
      group that is held, was yielded, or was overwritten in the buffer; and every True result started
      exactly one such group. */
  lemma {:induction false} EveryEventIsCountedOnce(s: Source, inputs: seq<Input>, l: Ledger)
    requires Balanced(s, l)
    ensures Balanced(Run(s, inputs, l).0, Run(s, inputs, l).1)
    decreases |inputs|
  {
    if inputs != [] {
      match inputs[0]
      case Inactive =>
        var e := GenerateAfterInactive(s);
        SumAppend(Values(s.buffer), Values(s.groups));
        SumAppend(l.yielded, e.yielded);
        EveryEventIsCountedOnce(e.source, inputs[1..], l.(yielded := l.yielded + e.yielded));
      case Event(k, t) =>
        AcceptKeepsBalance(s, k, t, l);
        match Accept(s, k, t) {
          case Err(s') => EveryEventIsCountedOnce(s', inputs[1..], l);
          case Ok(e) => EveryEventIsCountedOnce(e.source, inputs[1..], Booked(l, e));
        }
    }
  }

  // ---------------------------------------------------------------- events in time order

  ghost predicate SortedByUntil(d: Groups) {
    forall i, j :: 0 <= i < j < |d| ==> d[i].1.until <= d[j].1.until
  }

  /** A group the scan should take: silent for 12 hours, or of another day. */
  predicate Stale(g: Group, time: Time) {
    g.until < time - AGGREGATE_WAIT || Date(g.until) != Date(time)
  }

  /** On sorted groups the early-stopping scan takes exactly the stale ones. */
  lemma {:induction false} ScanTakesExactlyTheStale(d: Groups, time: Time, checked: bool)
    requires SortedByUntil(d) && forall i :: 0 <= i < |d| ==> d[i].1.until <= time
    requires checked && d != [] ==> d[0].1.until >= time - AGGREGATE_WAIT
    ensures var n := Scan(d, time, checked);
            && (forall i :: 0 <= i < n ==> Stale(d[i].1, time))
            && (forall i :: n <= i < |d| ==> !Stale(d[i].1, time))
    decreases |d|
  {
    if d != [] {
      var until := d[0].1.until;
      var checked' := checked || until >= time - AGGREGATE_WAIT;
      if !(checked' && Date(until) == Date(time)) {
        ScanTakesExactlyTheStale(d[1..], time, checked');
      }
    }
  }

  /** No group lies in the future or spans two days. */
  ghost predicate OneDayEach(d: Groups, time: Time) {
    forall i :: 0 <= i < |d| ==>
      d[i].1.first <= d[i].1.until <= time && Date(d[i].1.first) == Date(d[i].1.until)
  }

  ghost predicate NoneStale(d: Groups, time: Time) {
    forall i :: 0 <= i < |d| ==> !Stale(d[i].1, time)
  }

  /** What holds between two events that come in time order. */
  ghost predicate Tidy(s: Source) {
    && WellFormed(s) && SortedByUntil(s.groups) && s.tolerance >= 0
    && (s.time == None ==> s.groups == [])
    && (s.time.Some? ==> OneDayEach(s.groups, s.time.value) && NoneStale(s.groups, s.time.value))
  }

  /** The same right after `process_event()`: groups may have become stale meanwhile. */
  ghost predicate Processed(s: Source) {
    && WellFormed(s) && SortedByUntil(s.groups) && s.tolerance >= 0
    && s.time.Some? && OneDayEach(s.groups, s.time.value)
  }

  /** Moving the newest group to the end keeps the order. */
  lemma PutLastSorted(d: Groups, k: Key, g: Group)
    requires SortedByUntil(d) && Has(d, k)
    requires forall i :: 0 <= i < |d| ==> d[i].1.until <= g.until
    ensures SortedByUntil(PutLast(d, k, g))
  {
    forall i, j | 0 <= i < j < |d|
      ensures PutLast(d, k, g)[i].1.until <= PutLast(d, k, g)[j].1.until
    {
      PutLastAt(d, k, g, i);
      PutLastAt(d, k, g, j);
    }
  }

  lemma PutLastInOrder(d: Groups, k: Key, g: Group, time: Time)
    requires SortedByUntil(d) && OneDayEach(d, time) && Has(d, k)
    requires g.first <= g.until == time && Date(g.first) == Date(g.until)
    ensures SortedByUntil(PutLast(d, k, g)) && OneDayEach(PutLast(d, k, g), time)
  {
    PutLastSorted(d, k, g);
    forall i | 0 <= i < |d|
      ensures var g' := PutLast(d, k, g)[i].1; g'.first <= g'.until <= time && Date(g'.first) == Date(g'.until)
    {
      PutLastAt(d, k, g, i);
    }
  }

  lemma KnownGroupInOrder(s: Source, k: Key, t: Time)
    requires Tidy(s) && Has(s.groups, k) && s.time.Some? && s.time.value <= t
    ensures ProcessEvent(s, k, t).Ok?
    ensures var s' := ProcessEvent(s, k, t).value.source;
            SortedByUntil(s'.groups) && OneDayEach(s'.groups, t) && s'.time == Some(t)
  {
    var g := Get(s.groups, k);
    PutLastInOrder(s.groups, k, Group(t, t, 1), t);
    if Date(t) == Date(s.time.value) {
      assert !Stale(g, s.time.value);
      PutLastInOrder(s.groups, k, Counted(g.(until := Max(g.until, t))), t);
    } else {
      LaterDate(s.time.value, t);
    }
  }

  lemma LaterDate(a: Time, b: Time)
    requires a <= b && Date(a) != Date(b)
    ensures Date(a) < Date(b)
  {
  }

  /** For events in time order: an event joins the present group of its key exactly when it comes within
      12 hours of the group's last event and on the day of its first; else the group goes to the buffer as
      it is, and a new one starts. */
  lemma JoinsExactly(s: Source, k: Key, t: Time)
    requires Tidy(s) && Has(s.groups, k) && s.time.Some? && s.time.value <= t
    ensures var g := Get(s.groups, k);
            var joins := t <= g.until + AGGREGATE_WAIT && Date(t) == Date(g.first);
            ProcessEvent(s, k, t).Ok? &&
            var e := ProcessEvent(s, k, t).value;
            && e.isNew == !joins
            && e.source.groups[..|s.groups| - 1] == Drop(s.groups, Index(s.groups, k))
            && e.source.groups[|s.groups| - 1] == (k, if joins then Group(g.first, t, g.count + 1) else Group(t, t, 1))
            && e.source.buffer == if joins then s.buffer else Put(s.buffer, k, g)
  {
    var g := Get(s.groups, k);
    assert !Stale(g, s.time.value) && Date(g.first) == Date(g.until) && g.until <= s.time.value;
    if Date(t) != Date(s.time.value) {
      LaterDate(s.time.value, t);
    }
  }

  lemma ProcessInOrder(s: Source, k: Key, t: Time)
    requires Tidy(s) && (s.time.Some? ==> s.time.value <= t)
    ensures ProcessEvent(s, k, t).Ok?
    ensures var s' := ProcessEvent(s, k, t).value.source; Processed(s') && s'.time == Some(t)
  {
    ProcessEventBalances(s, k, t);
    if Has(s.groups, k) {
      KnownGroupInOrder(s, k, t);
    }
  }

  lemma GenerateInOrder(s: Source)
    requires Processed(s)
    ensures var e := GenerateSuppressed(s);
            var n := |s.groups| - |e.source.groups|;
            && Tidy(e.source) && e.source.time == s.time
            && n >= 0 && e.source.groups == s.groups[n..]
            && forall i :: 0 <= i < |s.groups| ==> (i < n <==> Stale(s.groups[i].1, s.time.value))
  {
    ScanTakesExactlyTheStale(s.groups, s.time.value, false);
    GenerateKeepsUnique(s);
  }

  /** For events in time order: no event is rejected; the groups stay sorted by `until`; the scan takes
      exactly the groups silent for 12 hours or of another day; so no group ever spans two days. */
  lemma AcceptInOrder(s: Source, k: Key, t: Time)
    requires Tidy(s) && (s.time.Some? ==> s.time.value <= t)
    ensures Accept(s, k, t).Ok?
    ensures Tidy(Accept(s, k, t).value.source) && Accept(s, k, t).value.source.time == Some(t)
    ensures var before, after := ProcessEvent(s, k, t).value.source, Accept(s, k, t).value.source;
            var n := |before.groups| - |after.groups|;
            && n >= 0 && after.groups == before.groups[n..]
            && forall i :: 0 <= i < |before.groups| ==> (i < n <==> Stale(before.groups[i].1, t))
  {
    ProcessInOrder(s, k, t);
    GenerateInOrder(ProcessEvent(s, k, t).value.source);
  }

  /** The events come in time order; a clean-up of the source may come at any moment. */
  ghost predicate InOrder(inputs: seq<Input>, from: Option<Time>) {
    && (forall i :: 0 <= i < |inputs| && inputs[i].Event? && from.Some? ==> from.value <= inputs[i].time)
    && (forall i, j :: 0 <= i < j < |inputs| && inputs[i].Event? && inputs[j].Event? ==>
          inputs[i].time <= inputs[j].time)
  }

  function EventCount(inputs: seq<Input>): nat {
    if inputs == [] then 0 else (if inputs[0].Event? then 1 else 0) + EventCount(inputs[1..])
  }

  lemma InOrderRest(inputs: seq<Input>, from: Option<Time>)
    requires InOrder(inputs, from) && inputs != []
    ensures InOrder(inputs[1..], if inputs[0].Event? then Some(inputs[0].time) else from)
  {
  }

  lemma InactiveKeepsTidy(s: Source)
    requires Tidy(s)
    ensures Tidy(GenerateAfterInactive(s).source) && GenerateAfterInactive(s).source.time == s.time
  {
  }

  /** A whole run in time order, clean-ups of an inactive source included, stays tidy and accepts every
      event. */
  lemma {:induction false} RunInOrder(s: Source, inputs: seq<Input>, l: Ledger)
    requires Tidy(s) && InOrder(inputs, s.time)
    ensures Tidy(Run(s, inputs, l).0)
    ensures Run(s, inputs, l).1.accepted == l.accepted + EventCount(inputs)
    decreases |inputs|
  {
    if inputs != [] {
      InOrderRest(inputs, s.time);
      match inputs[0]
      case Inactive =>
        InactiveKeepsTidy(s);
        var e := GenerateAfterInactive(s);
        RunInOrder(e.source, inputs[1..], l.(yielded := l.yielded + e.yielded));
      case Event(k, t) =>
        AcceptInOrder(s, k, t);
        var e := Accept(s, k, t).value;
        RunInOrder(e.source, inputs[1..], Booked(l, e));
    }
  }
}
