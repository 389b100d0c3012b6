/** The aggregator's per-source state as it is kept: dictionaries of event objects that are updated in
    place and moved from one dictionary to the other.  Its methods do what `Aggregation` says on values. */
module AggregatorSource {
  import opened Options
  import opened OrderedDicts
  import A = Aggregation

  class HiFreqEventData {
    const first: A.Time
    var until: A.Time
    var count: nat

    constructor (t: A.Time)
      ensures first == until == t && count == 1
    {
      first, until, count := t, t, 1;
    }

    ghost function Group(): A.Group
      reads this
    {
      A.Group(first, until, count)
    }
  }

  type Events = Dict<A.Key, HiFreqEventData>

  ghost function Objects(d: Events): set<HiFreqEventData> {
    set i | 0 <= i < |d| :: d[i].1
  }

  /** The dictionary as values. */
  ghost function Groups(d: Events): (r: A.Groups)
    reads Objects(d)
    ensures |r| == |d| && forall i :: 0 <= i < |d| ==> r[i] == (d[i].0, d[i].1.Group())
  {
    seq(|d|, i requires 0 <= i < |d| reads Objects(d) => (d[i].0, d[i].1.Group()))
  }

  twostate lemma SameGroups(d: Events)
    requires forall i :: 0 <= i < |d| ==> unchanged(d[i].1)
    ensures Groups(d) == old(Groups(d))
  {
  }

  /** Different keys, different objects. */
  ghost predicate Separate(d: Events) {
    Unique(d) && forall i, j :: 0 <= i < j < |d| ==> d[i].1 != d[j].1
  }

  ghost predicate Apart(a: Events, b: Events) {
    forall i, j :: 0 <= i < |a| && 0 <= j < |b| ==> a[i].1 != b[j].1
  }

  lemma GroupsIndex(d: Events, k: A.Key)
    ensures Index(Groups(d), k) == Index(d, k)
  {
    assert forall i :: 0 <= i < |d| ==> d[i].0 == Groups(d)[i].0;
  }

  lemma GroupsPut(d: Events, k: A.Key, e: HiFreqEventData)
    ensures Groups(Put(d, k, e)) == Put(Groups(d), k, e.Group())
  {
    GroupsIndex(d, k);
    var r := Put(d, k, e);
    forall i | 0 <= i < |r|
      ensures Groups(r)[i] == Put(Groups(d), k, e.Group())[i]
    {
      assert r[i] == if i == Index(d, k) then (k, e) else d[i];
    }
  }

  lemma GroupsDrop(d: Events, i: nat)
    requires i < |d|
    ensures Groups(Drop(d, i)) == Drop(Groups(d), i)
  {
  }

  lemma GroupsPutLast(d: Events, k: A.Key, e: HiFreqEventData)
    requires Has(d, k)
    ensures Has(Groups(d), k) && Groups(PutLast(d, k, e)) == PutLast(Groups(d), k, e.Group())
  {
    GroupsIndex(d, k);
    GroupsDrop(d, Index(d, k));
  }

  lemma SeparatePut(d: Events, k: A.Key, e: HiFreqEventData)
    requires Separate(d) && forall i :: 0 <= i < |d| ==> d[i].1 != e
    ensures Separate(Put(d, k, e))
  {
  }

  lemma SeparatePutLast(d: Events, k: A.Key, e: HiFreqEventData)
    requires Separate(d) && Has(d, k)
    requires forall i :: 0 <= i < |d| && i != Index(d, k) ==> d[i].1 != e
    ensures Separate(PutLast(d, k, e))
  {
    forall i, j | 0 <= i < j < |d|
      ensures PutLast(d, k, e)[i].1 != PutLast(d, k, e)[j].1
    {
      PutLastAt(d, k, e, i);
      PutLastAt(d, k, e, j);
    }
  }

  lemma ApartPutLast(d: Events, k: A.Key, e: HiFreqEventData, other: Events)
    requires Has(d, k) && Unique(d)
    requires forall i, j :: 0 <= i < |d| && 0 <= j < |other| && i != Index(d, k) ==> d[i].1 != other[j].1
    requires forall j :: 0 <= j < |other| ==> other[j].1 != e
    ensures Apart(PutLast(d, k, e), other)
  {
    forall i, j | 0 <= i < |d| && 0 <= j < |other|
      ensures PutLast(d, k, e)[i].1 != other[j].1
    {
      PutLastAt(d, k, e, i);
    }
  }

  /** Counts an event in the group object of a key, in place. */
  method CountIn(d: Events, other: Events, k: A.Key, t: A.Time)
    requires Separate(d) && Apart(d, other) && Has(d, k)
    modifies Get(d, k)
    ensures Has(old(Groups(d)), k)
    ensures var g := Get(old(Groups(d)), k);
            Groups(d) == Put(old(Groups(d)), k, A.Counted(g.(until := A.Max(g.until, t))))
    ensures Groups(other) == old(Groups(other))
  {
    GroupsIndex(d, k);
    var e := Get(d, k);
    if t > e.until {
      e.until := t;
    }
    e.count := e.count + 1;
    SameGroups(other);
  }

  /** The same, but without the time. */
  method CountAgain(d: Events, other: Events, k: A.Key)
    requires Separate(d) && Apart(other, d) && Has(d, k)
    modifies Get(d, k)
    ensures Has(old(Groups(d)), k)
    ensures Groups(d) == Put(old(Groups(d)), k, A.Counted(Get(old(Groups(d)), k)))
    ensures Groups(other) == old(Groups(other))
  {
    GroupsIndex(d, k);
    var e := Get(d, k);
    e.count := e.count + 1;
    SameGroups(other);
  }

  class SourceData {
    var time: Option<A.Time>
    const tolerance: A.Time
    var groups: Events
    var buffer: Events

    /** No event object is stored twice, in the same dictionary or in both. */
    ghost predicate Valid()
      reads this
    {
      Separate(groups) && Separate(buffer) && Apart(groups, buffer)
    }

    ghost function Model(): A.Source
      reads this, Objects(groups), Objects(buffer)
    {
      A.Source(time, tolerance, Groups(groups), Groups(buffer))
    }

    constructor (tolerance: A.Time)
      ensures Valid() && Model() == A.Source(None, tolerance, [], [])
    {
      time, this.tolerance, groups, buffer := None, tolerance, [], [];
    }

    method UpdateTime(t: A.Time)
      requires time.Some?
      modifies this`time
      ensures time == Some(A.Max(old(time).value, t))
    {
      if t > time.value {
        time := Some(t);
      }
    }

    /** `process_event()`; `Err` is an event out of order. */
    method ProcessEvent(k: A.Key, t: A.Time) returns (r: Result<bool, ()>)
      requires Valid()
      modifies this, Objects(groups), Objects(buffer)
      ensures Valid()
      ensures match A.ProcessEvent(old(Model()), k, t)
              case Err(s) => r == Err(()) && Model() == s
              case Ok(e) => r == Ok(e.isNew) && Model() == e.source
    {
      ghost var s := Model();
      GroupsIndex(groups, k);
      if time == None {
        time := Some(t);
      }
      SameGroups(groups);
      SameGroups(buffer);
      ghost var s0 := s.(time := time);
      assert Model() == s0;
      if t + tolerance < time.value {
        r := ProcessLateEvent(k, t);
        assert A.ProcessEvent(s, k, t) == A.LateEvent(s0, k, t);
      } else if !Has(groups, k) {
        var isNew := ProcessUnknownEvent(k, t);
        assert A.ProcessEvent(s, k, t) == Ok(A.UnknownEvent(s0, s0.time.value, k, t));
        r := Ok(isNew);
      } else {
        var isNew := ProcessKnownEvent(k, t);
        assert A.ProcessEvent(s, k, t) == Ok(A.KnownEvent(s0, s0.time.value, k, t));
        r := Ok(isNew);
      }
    }

    method ProcessLateEvent(k: A.Key, t: A.Time) returns (r: Result<bool, ()>)
      requires Valid()
      modifies Objects(groups)
      ensures Valid()
      ensures match A.LateEvent(old(Model()), k, t)
              case Err(s) => r == Err(()) && Model() == s
              case Ok(e) => r == Ok(e.isNew) && Model() == e.source
    {
      ghost var s := Model();
      GroupsIndex(groups, k);
      if !Has(groups, k) || Get(groups, k).first > t {
        return Err(());
      }
      CountIn(groups, buffer, k, t);
      assert Model() == A.LateEvent(s, k, t).value.source;
      r := Ok(false);
    }

    method ProcessUnknownEvent(k: A.Key, t: A.Time) returns (isNew: bool)
      requires Valid() && time.Some? && !Has(groups, k)
      modifies this`time, this`groups, Objects(buffer)
      ensures Valid()
      ensures var e := A.UnknownEvent(old(Model()), old(time).value, k, t); isNew == e.isNew && Model() == e.source
    {
      ghost var s := Model();
      GroupsIndex(buffer, k);
      if t < time.value && Has(buffer, k) {
        CountAgain(buffer, groups, k);
        assert Model() == A.UnknownEvent(s, s.time.value, k, t).source;
        return false;
      }
      var started := new HiFreqEventData(t);
      groups := groups + [(k, started)];
      UpdateTime(t);
      SameGroups(old(groups));
      SameGroups(buffer);
      assert Groups(groups) == Groups(old(groups)) + [(k, A.Group(t, t, 1))];
      assert Model() == A.UnknownEvent(s, s.time.value, k, t).source;
      isNew := true;
    }

    method ProcessKnownEvent(k: A.Key, t: A.Time) returns (isNew: bool)
      requires Valid() && time.Some? && Has(groups, k)
      modifies this, Objects(groups)
      ensures Valid() && Has(old(Groups(groups)), k)
      ensures var e := A.KnownEvent(old(Model()), old(time).value, k, t); isNew == e.isNew && Model() == e.source
    {
      ghost var s := Model();
      GroupsIndex(groups, k);
      var event := Get(groups, k);
      isNew := t > event.until + A.AGGREGATE_WAIT || A.Date(t) > A.Date(time.value);
      if isNew {
        RollOver(k, t);
      } else {
        CountLast(k, t);
      }
      label Moved:
      UpdateTime(t);
      SameGroups@Moved(groups);
      SameGroups@Moved(buffer);
      assert Model() == A.KnownEvent(s, s.time.value, k, t).source;
    }

    /** The present group goes to the buffer; a new one takes its key, at the end. */
    method RollOver(k: A.Key, t: A.Time)
      requires Valid() && Has(groups, k)
      modifies this`groups, this`buffer
      ensures Valid() && Has(old(Groups(groups)), k)
      ensures Groups(groups) == PutLast(old(Groups(groups)), k, A.Group(t, t, 1))
      ensures Groups(buffer) == Put(old(Groups(buffer)), k, Get(old(Groups(groups)), k))
    {
      var started := new HiFreqEventData(t);
      assert started !in Objects(groups) && started !in Objects(buffer);
      SwapIn(k, started);
      SameGroups(old(groups));
      SameGroups(old(buffer));
      RolledOver(old(groups), old(buffer), k, started);
    }

    method SwapIn(k: A.Key, started: HiFreqEventData)
      requires Valid() && Has(groups, k) && started !in Objects(groups) && started !in Objects(buffer)
      modifies this`groups, this`buffer
      ensures Valid()
      ensures groups == PutLast(old(groups), k, started) && buffer == Put(old(buffer), k, Get(old(groups), k))
    {
      SeparateRollOver(groups, buffer, k, started);
      groups, buffer := PutLast(groups, k, started), Put(buffer, k, Get(groups, k));
    }

    /** The event is counted in the present group, which moves to the end. */
    method CountLast(k: A.Key, t: A.Time)
      requires Valid() && Has(groups, k)
      modifies this`groups, Objects(groups)
      ensures Valid() && Has(old(Groups(groups)), k)
      ensures var g := Get(old(Groups(groups)), k);
              Groups(groups) == PutLast(old(Groups(groups)), k, A.Counted(g.(until := A.Max(g.until, t))))
      ensures Groups(buffer) == old(Groups(buffer))
    {
      CountIn(groups, buffer, k, t);
      label Counted:
      MovedToEnd(groups, buffer, k);
      groups := ToEnd(groups, k);
      SameGroups@Counted(buffer);
    }

    /** The loop of `generate_suppressed_events()`: the groups it finds are stored in the buffer. */
    method BufferStaleGroups() returns (n: nat)
      requires Valid() && time.Some?
      modifies this`buffer
      ensures n <= |groups| && n == A.Scan(old(Groups(groups)), time.value, false)
      ensures buffer == PutAll(old(buffer), groups[..n])
      ensures Separate(buffer) && Apart(groups[n..], buffer)
    {
      var cutoffTime := time.value - A.AGGREGATE_WAIT;
      var checked := false;
      n := 0;
      ghost var gs := Groups(groups);
      while n < |groups|
        invariant n <= |groups|
        invariant buffer == PutAll(old(buffer), groups[..n])
        invariant Separate(buffer) && Apart(groups[n..], buffer)
        invariant A.Scan(gs, time.value, false) == n + A.Scan(gs[n..], time.value, checked)
      {
        var (k, v) := groups[n];
        assert gs[n].1.until == v.until;
        ScanStep(gs, n, time.value, checked);
        if checked || v.until >= cutoffTime {
          checked := true;
          if A.Date(v.until) == A.Date(time.value) {
            assert A.Scan(gs, time.value, false) == n;
            break;
          }
        }
        MoveOneMore(groups, n, old(buffer), buffer);
        buffer := Put(buffer, k, v);
        n := n + 1;
      }
    }

    /** The loop with the deletions after it. */
    method TakeStaleGroups() returns (ghost n: nat)
      requires Valid() && time.Some?
      modifies this`groups, this`buffer
      ensures Valid()
      ensures n <= |old(groups)| && n == A.Scan(old(Groups(groups)), time.value, false)
      ensures Groups(groups) == old(Groups(groups))[n..]
      ensures Groups(buffer) == PutAll(old(Groups(buffer)), old(Groups(groups))[..n])
    {
      var k := BufferStaleGroups();
      SameGroups(old(groups));
      SameGroups(old(buffer));
      Generated(old(groups), old(buffer), k);
      groups := groups[k..];
      n := k;
    }

    /** `_generate_suppressed_events_from_buffer()` */
    method GenerateFromBuffer() returns (yielded: seq<A.Group>, ghost m: nat)
      requires Valid() && time.Some?
      modifies this`buffer
      ensures Valid()
      ensures m == A.Ripe(old(Groups(buffer)), time.value - tolerance)
      ensures yielded == A.Values(old(Groups(buffer))[..m]) && Groups(buffer) == old(Groups(buffer))[m..]
      ensures Groups(groups) == old(Groups(groups))
    {
      var cutoffTime := time.value - tolerance;
      var n := 0;
      yielded := [];
      while n < |buffer| && buffer[n].1.until < cutoffTime
        invariant n <= |buffer| && buffer == old(buffer)
        invariant |yielded| == n && forall i :: 0 <= i < n ==> yielded[i] == buffer[i].1.Group()
        invariant forall i :: 0 <= i < n ==> buffer[i].1.until < cutoffTime
      {
        var v := buffer[n].1;
        yielded := yielded + [A.Group(v.first, v.until, v.count)];
        n := n + 1;
      }
      m := n;
      RipeIs(Groups(buffer), n, cutoffTime);
      ValuesAre(Groups(buffer)[..n], yielded);
      assert Groups(buffer[n..]) == Groups(buffer)[n..];
      buffer := buffer[n..];
      SameGroups(buffer);
      SameGroups(groups);
    }

    /** `generate_suppressed_events()` with everything it yields. */
    method GenerateSuppressedEvents() returns (yielded: seq<A.Group>)
      requires Valid() && time.Some?
      modifies this`groups, this`buffer
      ensures Valid()
      ensures var e := A.GenerateSuppressed(old(Model())); yielded == e.yielded && Model() == e.source
    {
      ghost var s := Model();
      ghost var n := TakeStaleGroups();
      ghost var m;
      yielded, m := GenerateFromBuffer();
      A.GeneratedPieces(s, n, m);
    }

    /** `generate_suppressed_events_after_inactive()` with everything it yields. */
    method GenerateAfterInactive() returns (yielded: seq<A.Group>)
      requires Valid()
      modifies this`groups, this`buffer
      ensures Valid()
      ensures var e := A.GenerateAfterInactive(old(Model())); yielded == e.yielded && Model() == e.source
    {
      ghost var s := Model();
      var fromBuffer := YieldAll(buffer);
      assert fromBuffer == A.Values(s.buffer);
      SameGroups(groups);
      var fromGroups := YieldAll(groups);
      assert fromGroups == A.Values(s.groups);
      yielded := fromBuffer + fromGroups;
      groups, buffer := [], [];
      assert Groups(groups) == [] && Groups(buffer) == [];
      assert Model() == A.GenerateAfterInactive(s).source;
    }
  }

  method YieldAll(d: Events) returns (yielded: seq<A.Group>)
    ensures yielded == A.Values(old(Groups(d))) && Groups(d) == old(Groups(d))
  {
    yielded := [];
    for n := 0 to |d|
      invariant |yielded| == n && forall i :: 0 <= i < n ==> yielded[i] == d[i].1.Group()
    {
      var v := d[n].1;
      yielded := yielded + [A.Group(v.first, v.until, v.count)];
    }
    SameGroups(d);
    ValuesAre(Groups(d), yielded);
  }

  lemma {:induction false} RipeIs(bs: A.Groups, n: nat, cutoff: A.Time)
    requires n <= |bs| && forall i :: 0 <= i < n ==> bs[i].1.until < cutoff
    requires n < |bs| ==> bs[n].1.until >= cutoff
    ensures A.Ripe(bs, cutoff) == n
    decreases n
  {
    if n > 0 {
      RipeIs(bs[1..], n - 1, cutoff);
    }
  }

  lemma {:induction false} ValuesAre(bs: A.Groups, gs: seq<A.Group>)
    requires |gs| == |bs| && forall i :: 0 <= i < |bs| ==> gs[i] == bs[i].1
    ensures A.Values(bs) == gs
    decreases |bs|
  {
    if bs != [] {
      ValuesAre(bs[1..], gs[1..]);
    }
  }

  /** Moving an item to the end moves its value to the end. */
  lemma MovedToEnd(groups: Events, buffer: Events, k: A.Key)
    requires Separate(groups) && Separate(buffer) && Apart(groups, buffer) && Has(groups, k)
    ensures Separate(ToEnd(groups, k)) && Apart(ToEnd(groups, k), buffer)
    ensures Has(Groups(groups), k) && Groups(ToEnd(groups, k)) == ToEnd(Groups(groups), k)
  {
    var e := Get(groups, k);
    assert Put(groups, k, e) == groups;
    GroupsPutLast(groups, k, e);
    GroupsIndex(groups, k);
    assert Put(Groups(groups), k, e.Group()) == Groups(groups);
    SeparatePutLast(groups, k, e);
    ApartPutLast(groups, k, e, buffer);
  }

  lemma RolledOver(groups: Events, buffer: Events, k: A.Key, e: HiFreqEventData)
    requires Has(groups, k)
    ensures Has(Groups(groups), k)
    ensures Groups(PutLast(groups, k, e)) == PutLast(Groups(groups), k, e.Group())
    ensures Groups(Put(buffer, k, Get(groups, k))) == Put(Groups(buffer), k, Get(Groups(groups), k))
  {
    GroupsPutLast(groups, k, e);
    GroupsIndex(groups, k);
    GroupsPut(buffer, k, Get(groups, k));
  }

  /** The two steps of the generator on objects are those on values. */
  lemma Generated(groups: Events, buffer: Events, n: nat)
    requires n <= |groups|
    ensures Groups(groups[n..]) == Groups(groups)[n..]
    ensures Groups(PutAll(buffer, groups[..n])) == PutAll(Groups(buffer), Groups(groups)[..n])
  {
    GroupsPutAll(buffer, groups[..n]);
    assert Groups(groups[..n]) == Groups(groups)[..n];
  }

  lemma ScanStep(gs: A.Groups, n: nat, time: A.Time, checked: bool)
    requires n < |gs|
    ensures var until := gs[n].1.until;
            var checked' := checked || until >= time - A.AGGREGATE_WAIT;
            A.Scan(gs[n..], time, checked)
            == if checked' && A.Date(until) == A.Date(time) then 0 else 1 + A.Scan(gs[n + 1..], time, checked')
  {
    assert gs[n..][0] == gs[n] && gs[n..][1..] == gs[n + 1..];
  }

  lemma SeparateRollOver(groups: Events, buffer: Events, k: A.Key, e: HiFreqEventData)
    requires Separate(groups) && Separate(buffer) && Apart(groups, buffer) && Has(groups, k)
    requires forall i :: 0 <= i < |groups| ==> groups[i].1 != e
    requires forall i :: 0 <= i < |buffer| ==> buffer[i].1 != e
    ensures var groups', buffer' := PutLast(groups, k, e), Put(buffer, k, Get(groups, k));
            Separate(groups') && Separate(buffer') && Apart(groups', buffer')
  {
    var event, i0 := Get(groups, k), Index(groups, k);
    SeparatePut(buffer, k, event);
    SeparatePutLast(groups, k, e);
    var buffer' := Put(buffer, k, event);
    forall j | 0 <= j < |buffer'|
      ensures buffer'[j].1 == event || (j < |buffer| && buffer'[j] == buffer[j])
    {
    }
    ApartPutLast(groups, k, e, buffer');
  }

  /** One more group moves from the front of `groups` to the buffer. */
  lemma MoveOneMore(groups: Events, n: nat, buffer0: Events, buffer: Events)
    requires n < |groups| && Separate(groups) && Separate(buffer) && Apart(groups[n..], buffer)
    requires buffer == PutAll(buffer0, groups[..n])
    ensures var buffer' := Put(buffer, groups[n].0, groups[n].1);
            && buffer' == PutAll(buffer0, groups[..n + 1])
            && Separate(buffer') && Apart(groups[n + 1..], buffer')
  {
    var (k, v) := groups[n];
    assert Put(buffer, k, v) == PutAll(buffer0, groups[..n + 1]) by {
      PutAllAppend(buffer0, groups[..n], k, v);
      assert groups[..n + 1] == groups[..n] + [(k, v)];
    }
    assert forall j :: 0 <= j < |buffer| ==> buffer[j].1 != v by {
      assert groups[n..][0].1 == v;
    }
    SeparatePut(buffer, k, v);
    ApartNext(groups, n, buffer);
  }

  lemma ApartNext(groups: Events, n: nat, buffer: Events)
    requires n < |groups| && Separate(groups) && Apart(groups[n..], buffer)
    ensures Apart(groups[n + 1..], Put(buffer, groups[n].0, groups[n].1))
  {
    forall i, j | n < i < |groups| && 0 <= j < |Put(buffer, groups[n].0, groups[n].1)|
      ensures groups[i].1 != Put(buffer, groups[n].0, groups[n].1)[j].1
    {
      assert groups[n..][i - n] == groups[i];
    }
  }

  lemma {:induction false} GroupsPutAll(d: Events, items: Events)
    ensures Groups(PutAll(d, items)) == PutAll(Groups(d), Groups(items))
    decreases |items|
  {
    if items != [] {
      var (k, v) := items[0];
      GroupsPut(d, k, v);
      GroupsPutAll(Put(d, k, v), items[1..]);
      assert Groups(items)[1..] == Groups(items[1..]);
    }
  }
}
