/** The rules of grouping, case by case, for events and states of every kind: which group an event joins,
    where each group then stands, and which groups a scan moves and yields. */
module GroupingRules {
  import opened Options
  import opened OrderedDicts
  import opened Aggregation

  const TWELVE_HOURS := 43_200     // seconds
  const A_DAY := 86_400

  /** Calendar days are numbered. */
  function Day(t: Time): int {
    t / A_DAY
  }

  /** The source's time, once the event has been seen. */
  function Now(s: Source, t: Time): Time {
    if s.time.Some? then s.time.value else t
  }

  predicate IsLate(s: Source, t: Time) {
    t + s.tolerance < Now(s, t)
  }

  /** Some item has the key. */
  ghost predicate Present(d: Groups, k: Key) {
    exists i :: 0 <= i < |d| && d[i].0 == k
  }

  // ---- how a dictionary changes

  /** The item at one place has another group; nothing else changes. */
  ghost predicate ChangedAt(d: Groups, d': Groups, i: nat, g: Group) {
    && i < |d| == |d'| && d'[i] == (d[i].0, g)
    && forall j :: 0 <= j < |d| && j != i ==> d'[j] == d[j]
  }

  /** The item at one place has another group and stands last; the others keep their order. */
  ghost predicate MovedLast(d: Groups, d': Groups, i: nat, g: Group) {
    && i < |d| == |d'| && d'[|d| - 1] == (d[i].0, g)
    && (forall j :: 0 <= j < i ==> d'[j] == d[j])
    && (forall j :: i <= j < |d| - 1 ==> d'[j] == d[j + 1])
  }

  /** A group is stored under a key: in the place of its namesake, or else at the end. */
  ghost predicate StoredUnder(d: Groups, d': Groups, k: Key, g: Group) {
    if Present(d, k) then exists i :: 0 <= i < |d| && d[i].0 == k && ChangedAt(d, d', i, g)
    else d' == d + [(k, g)]
  }

  lemma PresentExactly(d: Groups, k: Key)
    ensures Present(d, k) <==> Has(d, k)
  {
    if Has(d, k) {
      assert d[Index(d, k)].0 == k;
    }
  }

  lemma PutStores(d: Groups, k: Key, g: Group)
    ensures StoredUnder(d, Put(d, k, g), k, g)
  {
    PresentExactly(d, k);
    if Has(d, k) {
      assert ChangedAt(d, Put(d, k, g), Index(d, k), g);
    }
  }

  lemma DroppedAndAdded(d: Groups, i: nat, g: Group)
    requires i < |d|
    ensures MovedLast(d, Drop(d, i) + [(d[i].0, g)], i, g)
  {
    var rest := Drop(d, i);
    assert |rest| == |d| - 1 && rest[..i] == d[..i] && rest[i..] == d[i + 1..];
    forall j | 0 <= j < |d| - 1
      ensures rest[j] == if j < i then d[j] else d[j + 1]
    {
      if j >= i {
        assert rest[i..][j - i] == d[i + 1..][j - i];
      }
    }
  }

  lemma PutLastMoves(d: Groups, k: Key, g: Group)
    requires Has(d, k)
    ensures MovedLast(d, PutLast(d, k, g), Index(d, k), g)
  {
    DroppedAndAdded(d, Index(d, k), g);
  }

  lemma IndexIs(d: Groups, i: nat)
    requires Unique(d) && i < |d|
    ensures Has(d, d[i].0) && Index(d, d[i].0) == i && Get(d, d[i].0) == d[i].1
  {
  }

  // ---- events

  /** An event is rejected if and only if it is older than the tolerance and no present group of its key began
      at or before it; then only the time may have been set. */
  lemma RejectsExactly(s: Source, k: Key, t: Time)
    requires WellFormed(s)
    ensures ProcessEvent(s, k, t).Err?
            <==> IsLate(s, t) && !(exists i :: 0 <= i < |s.groups| && s.groups[i].0 == k && s.groups[i].1.first <= t)
    ensures ProcessEvent(s, k, t).Err? ==> ProcessEvent(s, k, t).error == s.(time := Some(Now(s, t)))
  {
    forall i | 0 <= i < |s.groups|
      ensures Has(s.groups, s.groups[i].0) && Get(s.groups, s.groups[i].0) == s.groups[i].1
    {
      IndexIs(s.groups, i);
    }
    if Has(s.groups, k) {
      assert s.groups[Index(s.groups, k)].0 == k;
    }
  }

  /** What an event leaves besides its group. */
  ghost predicate Leaves(s: Source, t: Time, e: Effect, isNew: bool) {
    && e.isNew == isNew && e.yielded == [] && e.source.tolerance == s.tolerance
    && e.source.time == Some(if IsLate(s, t) || t < Now(s, t) then Now(s, t) else t)
  }

  /** One more event, at this time. */
  function Grown(g: Group, t: Time): Group {
    Group(g.first, if t > g.until then t else g.until, g.count + 1)
  }

  /** An accepted late event is counted in its group, which keeps its place; nothing else changes. */
  lemma LateEventJoins(s: Source, k: Key, t: Time, i: nat)
    requires WellFormed(s) && IsLate(s, t)
    requires i < |s.groups| && s.groups[i].0 == k && s.groups[i].1.first <= t
    ensures ProcessEvent(s, k, t).Ok?
    ensures var e := ProcessEvent(s, k, t).value;
            && Leaves(s, t, e, false) && e.replaced == [] && e.source.buffer == s.buffer
            && ChangedAt(s.groups, e.source.groups, i, Grown(s.groups[i].1, t))
  {
    IndexIs(s.groups, i);
  }

  /** An event within the tolerance whose key has no present group: when it is older than the source's time
      and its key is in the buffer, it is counted there, and the group keeps its place and its times; else it
      starts a new group at the end. */
  lemma UnknownKeyExactly(s: Source, k: Key, t: Time)
    requires WellFormed(s) && !IsLate(s, t) && !Present(s.groups, k)
    ensures ProcessEvent(s, k, t).Ok?
    ensures var e := ProcessEvent(s, k, t).value;
            if t < Now(s, t) && Present(s.buffer, k) then
              && Leaves(s, t, e, false) && e.replaced == [] && e.source.groups == s.groups
              && exists i :: 0 <= i < |s.buffer| && s.buffer[i].0 == k
                             && ChangedAt(s.buffer, e.source.buffer, i, Counted(s.buffer[i].1))
            else
              && Leaves(s, t, e, true) && e.replaced == [] && e.source.buffer == s.buffer
              && e.source.groups == s.groups + [(k, Group(t, t, 1))]
  {
    PresentExactly(s.groups, k);
    PresentExactly(s.buffer, k);
    if t < Now(s, t) && Present(s.buffer, k) {
      var i := Index(s.buffer, k);
      assert ChangedAt(s.buffer, Put(s.buffer, k, Counted(Get(s.buffer, k))), i, Counted(s.buffer[i].1));
    }
  }

  /** Has the group been silent for too long, or is the event of a later day than the source's time? */
  predicate Ends(s: Source, g: Group, t: Time) {
    t - g.until > TWELVE_HOURS || Day(t) > Day(Now(s, t))
  }

  /** An event within the tolerance whose key has a present group: when that one ends, it goes to the buffer
      as it is, and a new group starts; else it grows.  Either way the key's group then stands last. */
  lemma KnownKeyExactly(s: Source, k: Key, t: Time, i: nat)
    requires WellFormed(s) && !IsLate(s, t) && i < |s.groups| && s.groups[i].0 == k
    ensures ProcessEvent(s, k, t).Ok?
    ensures var e, g := ProcessEvent(s, k, t).value, s.groups[i].1;
            if Ends(s, g, t) then
              && Leaves(s, t, e, true) && MovedLast(s.groups, e.source.groups, i, Group(t, t, 1))
              && StoredUnder(s.buffer, e.source.buffer, k, g)
            else
              && Leaves(s, t, e, false) && MovedLast(s.groups, e.source.groups, i, Grown(g, t))
              && e.source.buffer == s.buffer && e.replaced == []
  {
    IndexIs(s.groups, i);
    var g := s.groups[i].1;
    if Ends(s, g, t) {
      PutLastMoves(s.groups, k, Group(t, t, 1));
      PutStores(s.buffer, k, g);
    } else {
      PutLastMoves(s.groups, k, Counted(g.(until := Max(g.until, t))));
    }
  }

  // ---- the scan

  /** The scan stops at the first group of today that is not, or has before it one that is not, silent for 12
      hours. */
  ghost predicate StopsAt(d: Groups, time: Time, i: nat) {
    && i < |d| && Day(d[i].1.until) == Day(time)
    && exists j :: 0 <= j <= i && time - d[j].1.until <= TWELVE_HOURS
  }

  lemma {:induction false} ScanUpTo(d: Groups, time: Time, checked: bool)
    ensures var n := Scan(d, time, checked);
            && (forall i :: 0 <= i < n ==> !(Date(d[i].1.until) == Date(time) && (checked || StopsAt(d, time, i))))
            && (n < |d| ==> Date(d[n].1.until) == Date(time) && (checked || StopsAt(d, time, n)))
    decreases |d|
  {
    if d != [] {
      var checked' := checked || d[0].1.until >= time - AGGREGATE_WAIT;
      if !(checked' && Date(d[0].1.until) == Date(time)) {
        var rest := d[1..];
        ScanUpTo(rest, time, checked');
        forall i | 0 <= i < |rest|
          ensures rest[i] == d[i + 1]
          ensures Date(d[i + 1].1.until) == Date(time) ==>
                    (checked' || StopsAt(rest, time, i) <==> checked || StopsAt(d, time, i + 1))
        {
          StopsLater(d, time, i);
        }
      }
    }
  }

  lemma StopsLater(d: Groups, time: Time, i: nat)
    requires i + 1 < |d|
    ensures Date(d[i + 1].1.until) == Date(time) ==>
              (StopsAt(d, time, i + 1) <==> d[0].1.until >= time - AGGREGATE_WAIT || StopsAt(d[1..], time, i))
  {
    if StopsAt(d, time, i + 1) {
      var j :| 0 <= j <= i + 1 && d[j].1.until >= time - AGGREGATE_WAIT;
      assert j > 0 ==> d[1..][j - 1] == d[j];
    }
    if StopsAt(d[1..], time, i) {
      var j :| 0 <= j <= i && d[1..][j].1.until >= time - AGGREGATE_WAIT;
      assert d[j + 1] == d[1..][j];
    }
  }

  /** On groups in any order: exactly those before the first stop are taken. */
  lemma ScanExactly(d: Groups, time: Time)
    ensures var n := Scan(d, time, false);
            && (forall i :: 0 <= i < n ==> !StopsAt(d, time, i))
            && (n < |d| ==> StopsAt(d, time, n))
  {
    ScanUpTo(d, time, false);
  }

  /** Of the buffer, in its order: exactly those before the first one not older than the cutoff. */
  lemma {:induction false} RipeExactly(d: Groups, cutoff: Time)
    ensures var n := Ripe(d, cutoff);
            && (forall i :: 0 <= i < n ==> d[i].1.until < cutoff)
            && (n < |d| ==> d[n].1.until >= cutoff)
  {
    if d != [] && d[0].1.until < cutoff {
      RipeExactly(d[1..], cutoff);
    }
  }

  lemma {:induction false} ValuesAre(d: Groups, i: nat)
    requires i < |d|
    ensures Values(d)[i] == d[i].1
  {
    if i > 0 {
      ValuesAre(d[1..], i - 1);
    }
  }

  /** The buffer after a scan: namesakes of taken groups are replaced in their places, the other taken groups
      follow in their order. */
  ghost predicate Merged(d: Groups, items: Groups, r: Groups) {
    && |r| >= |d|
    && (forall i :: 0 <= i < |d| ==>
          r[i] == if Has(items, d[i].0) then (d[i].0, Get(items, d[i].0)) else d[i])
    && r[|d|..] == Strangers(d, items)
  }

  function Strangers(d: Groups, items: Groups): Groups {
    if items == [] then []
    else (if Has(d, items[0].0) then [] else [items[0]]) + Strangers(d, items[1..])
  }

  lemma {:induction false} SameStrangers(d: Groups, d': Groups, items: Groups)
    requires forall i :: 0 <= i < |items| ==> (Has(d, items[i].0) <==> Has(d', items[i].0))
    ensures Strangers(d, items) == Strangers(d', items)
    decreases |items|
  {
    if items != [] {
      SameStrangers(d, d', items[1..]);
    }
  }

  /** The first key does not come again. */
  lemma FirstKeyOnce(items: Groups)
    requires Unique(items) && items != []
    ensures Unique(items[1..]) && !Has(items[1..], items[0].0)
    ensures forall i :: 0 <= i < |items| - 1 ==> items[1..][i].0 != items[0].0
  {
    assert forall i :: 0 <= i < |items| - 1 ==> items[1..][i] == items[i + 1];
  }

  lemma {:induction false} PutAllLonger(d: Groups, items: Groups)
    ensures |PutAll(d, items)| >= |d|
    decreases |items|
  {
    if items != [] {
      PutAllLonger(Put(d, items[0].0, items[0].1), items[1..]);
    }
  }

  lemma {:induction false} PutAllAt(d: Groups, items: Groups, i: nat)
    requires Unique(d) && Unique(items) && i < |d|
    ensures |PutAll(d, items)| >= |d|
    ensures PutAll(d, items)[i] == if Has(items, d[i].0) then (d[i].0, Get(items, d[i].0)) else d[i]
    decreases |items|
  {
    PutAllLonger(d, items);
    if items != [] {
      var (k, g) := items[0];
      var d' := Put(d, k, g);
      FirstKeyOnce(items);
      IndexIs(d, i);
      assert d'[i] == if d[i].0 == k then (k, g) else d[i];
      PutAllAt(d', items[1..], i);
    }
  }

  lemma {:induction false} PutAllRest(d: Groups, items: Groups)
    requires Unique(d) && Unique(items)
    ensures |PutAll(d, items)| >= |d| && PutAll(d, items)[|d|..] == Strangers(d, items)
    decreases |items|
  {
    PutAllLonger(d, items);
    if items != [] {
      var (k, g) := items[0];
      var rest, d' := items[1..], Put(d, k, g);
      FirstKeyOnce(items);
      PutAllRest(d', rest);
      forall i | 0 <= i < |rest|
        ensures Has(d, rest[i].0) <==> Has(d', rest[i].0)
      {
        PutOther(d, k, g, rest[i].0);
      }
      SameStrangers(d, d', rest);
      if !Has(d, k) {
        PutAllAt(d', rest, |d|);
        SuffixFrom(PutAll(d', rest), |d|);
      }
    }
  }

  lemma SuffixFrom(d: Groups, i: nat)
    requires i < |d|
    ensures d[i..] == [d[i]] + d[i + 1..]
  {
  }

  lemma PutAllMerges(d: Groups, items: Groups)
    requires Unique(d) && Unique(items)
    ensures Merged(d, items, PutAll(d, items))
  {
    PutAllRest(d, items);
    forall i | 0 <= i < |d|
      ensures PutAll(d, items)[i] == if Has(items, d[i].0) then (d[i].0, Get(items, d[i].0)) else d[i]
    {
      PutAllAt(d, items, i);
    }
  }

  /** What is yielded off the front of the buffer: what is older than the cutoff, up to the first that is not;
      the rest stays. */
  ghost predicate Yields(buffer: Groups, cutoff: Time, e: Effect) {
    var m := |e.yielded|;
    && m <= |buffer| && e.source.buffer == buffer[m..]
    && (forall i :: 0 <= i < m ==> buffer[i].1.until < cutoff && e.yielded[i] == buffer[i].1)
    && (m < |buffer| ==> buffer[m].1.until >= cutoff)
  }

  lemma FrontIsYielded(buffer: Groups, cutoff: Time, e: Effect)
    requires e.source.buffer == buffer[Ripe(buffer, cutoff)..] && e.yielded == Values(buffer[..Ripe(buffer, cutoff)])
    ensures Yields(buffer, cutoff, e)
  {
    var m := Ripe(buffer, cutoff);
    RipeExactly(buffer, cutoff);
    forall i | 0 <= i < m
      ensures e.yielded[i] == buffer[i].1
    {
      ValuesAre(buffer[..m], i);
    }
  }

  lemma GenerateTakes(s: Source)
    requires s.time.Some?
    ensures var e, n := GenerateSuppressed(s), Scan(s.groups, s.time.value, false);
            && e.source.groups == s.groups[n..] && |e.source.groups| == |s.groups| - n
            && e.source.time == s.time && e.source.tolerance == s.tolerance
  {
  }

  ghost predicate MergesAndYields(d: Groups, items: Groups, cutoff: Time, e: Effect) {
    exists buffer: Groups :: Merged(d, items, buffer) && Yields(buffer, cutoff, e)
  }

  lemma MergesWith(d: Groups, items: Groups, cutoff: Time, e: Effect, buffer: Groups)
    requires Merged(d, items, buffer) && Yields(buffer, cutoff, e)
    ensures MergesAndYields(d, items, cutoff, e)
  {
  }

  /** The effect of `GenerateSuppressed()`, for any taken groups. */
  lemma MergedFrontIsYielded(d: Groups, taken: Groups, cutoff: Time, e: Effect)
    requires Unique(d) && Unique(taken)
    requires var buffer := PutAll(d, taken);
             var m := Ripe(buffer, cutoff);
             e.source.buffer == buffer[m..] && e.yielded == Values(buffer[..m])
    ensures MergesAndYields(d, taken, cutoff, e)
  {
    var buffer := PutAll(d, taken);
    PutAllMerges(d, taken);
    FrontIsYielded(buffer, cutoff, e);
    MergesWith(d, taken, cutoff, e, buffer);
  }

  lemma {:induction false} PrefixUnique(d: Groups, n: nat)
    requires Unique(d) && n <= |d|
    ensures Unique(d[..n])
  {
  }

  lemma {:induction false} GenerateYields(s: Source)
    requires WellFormed(s) && s.time.Some?
    ensures var taken := s.groups[..Scan(s.groups, s.time.value, false)];
            MergesAndYields(s.buffer, taken, s.time.value - s.tolerance, GenerateSuppressed(s))
  {
    var n := Scan(s.groups, s.time.value, false);
    PrefixUnique(s.groups, n);
    MergedFrontIsYielded(s.buffer, s.groups[..n], s.time.value - s.tolerance, GenerateSuppressed(s));
  }

  /** What generating suppressed events does, for groups and a buffer in any order: the groups before the first
      stop are merged into the buffer, whose front is yielded. */
  lemma GenerateExactly(s: Source)
    requires WellFormed(s) && s.time.Some?
    ensures var e := GenerateSuppressed(s);
            var n := |s.groups| - |e.source.groups|;
            && 0 <= n <= |s.groups| && e.source.groups == s.groups[n..]
            && e.source.time == s.time && e.source.tolerance == s.tolerance
            && (forall i :: 0 <= i < n ==> !StopsAt(s.groups, s.time.value, i))
            && (n < |s.groups| ==> StopsAt(s.groups, s.time.value, n))
            && MergesAndYields(s.buffer, s.groups[..n], s.time.value - s.tolerance, e)
  {
    GenerateTakes(s);
    ScanExactly(s.groups, s.time.value);
    GenerateYields(s);
  }
}
