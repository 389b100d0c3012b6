/** When counts get lost: a group moved to the buffer overwrites a group of the same key that is still
    there. */
module Overwriting {
  import opened Options
  import opened OrderedDicts
  import opened Aggregation

  // ---------------------------------------------------------------- one call

  /** Does the event end the present group of its key? */
  predicate RollsOver(s: Source, k: Key, t: Time) {
    var time := if s.time == None then t else s.time.value;
    && t + s.tolerance >= time && Has(s.groups, k)
    && (t > Get(s.groups, k).until + AGGREGATE_WAIT || Date(t) > Date(time))
  }

  /** The groups a scan takes. */
  function Taken(s: Source): Groups
    requires s.time.Some?
  {
    s.groups[..Scan(s.groups, s.time.value, false)]
  }

  /** Some key of these is in the buffer. */
  ghost predicate SomeBuffered(items: Groups, buffer: Groups) {
    exists i :: 0 <= i < |items| && Has(buffer, items[i].0)
  }

  /** The event moves a group onto a buffered one, or the scan after it does. */
  ghost predicate Collides(s: Source, k: Key, t: Time)
    requires ProcessEvent(s, k, t).Ok?
  {
    TimeIsSet(s, k, t);
    var s' := ProcessEvent(s, k, t).value.source;
    (RollsOver(s, k, t) && Has(s.buffer, k)) || SomeBuffered(Taken(s'), s'.buffer)
  }

  /** The buffered group that would be overwritten under a key. */
  ghost predicate Buffered(buffer: Groups, k: Key, g: Group) {
    Has(buffer, k) && Get(buffer, k) == g
  }

  ghost predicate BufferedUnder(items: Groups, buffer: Groups, g: Group) {
    exists i :: 0 <= i < |items| && Buffered(buffer, items[i].0, g)
  }

  /** The event moves a group onto `g`, or the scan after it does. */
  ghost predicate Overwrites(s: Source, k: Key, t: Time, g: Group)
    requires ProcessEvent(s, k, t).Ok?
  {
    TimeIsSet(s, k, t);
    var s' := ProcessEvent(s, k, t).value.source;
    (RollsOver(s, k, t) && Buffered(s.buffer, k, g)) || BufferedUnder(Taken(s'), s'.buffer, g)
  }

  lemma {:induction false} AllOverwrittenExactly(buffer: Groups, items: Groups, g: Group)
    requires Unique(items)
    ensures g in AllOverwritten(buffer, items) <==> BufferedUnder(items, buffer, g)
    decreases |items|
  {
    if items != [] {
      var (k, h) := items[0];
      var rest := items[1..];
      AllOverwrittenExactly(Put(buffer, k, h), rest, g);
      assert g in Overwritten(buffer, k) <==> Buffered(buffer, k, g);
      forall i | 0 <= i < |rest|
        ensures rest[i] == items[i + 1]
        ensures Buffered(Put(buffer, k, h), rest[i].0, g) <==> Buffered(buffer, rest[i].0, g)
      {
        PutOther(buffer, k, h, rest[i].0);
      }
      if BufferedUnder(items, buffer, g) && !Buffered(buffer, k, g) {
        var i :| 0 <= i < |items| && Buffered(buffer, items[i].0, g);
        assert Buffered(Put(buffer, k, h), rest[i - 1].0, g);
      }
    }
  }

  lemma ProcessOverwritesExactly(s: Source, k: Key, t: Time, g: Group)
    requires ProcessEvent(s, k, t).Ok?
    ensures g in ProcessEvent(s, k, t).value.replaced <==> RollsOver(s, k, t) && Buffered(s.buffer, k, g)
  {
  }

  /** An accepted event overwrites exactly these groups. */
  lemma OverwritesExactly(s: Source, k: Key, t: Time, g: Group)
    requires WellFormed(s) && Accept(s, k, t).Ok?
    ensures g in Accept(s, k, t).value.replaced <==> Overwrites(s, k, t, g)
  {
    ProcessEventBalances(s, k, t);
    TimeIsSet(s, k, t);
    var e := ProcessEvent(s, k, t).value;
    ProcessOverwritesExactly(s, k, t, g);
    AllOverwrittenExactly(e.source.buffer, Taken(e.source), g);
    assert GenerateSuppressed(e.source).replaced == AllOverwritten(e.source.buffer, Taken(e.source));
  }

  /** So it overwrites nothing if and only if it does not collide. */
  lemma OverwritesNothingExactly(s: Source, k: Key, t: Time)
    requires WellFormed(s) && Accept(s, k, t).Ok?
    ensures Accept(s, k, t).value.replaced == [] <==> !Collides(s, k, t)
  {
    TimeIsSet(s, k, t);
    var s', replaced := ProcessEvent(s, k, t).value.source, Accept(s, k, t).value.replaced;
    if replaced != [] {
      OverwritesExactly(s, k, t, replaced[0]);
    } else if RollsOver(s, k, t) && Has(s.buffer, k) {
      OverwritesExactly(s, k, t, Get(s.buffer, k));
    } else if SomeBuffered(Taken(s'), s'.buffer) {
      var i :| 0 <= i < |Taken(s')| && Has(s'.buffer, Taken(s')[i].0);
      assert Buffered(s'.buffer, Taken(s')[i].0, Get(s'.buffer, Taken(s')[i].0));
      OverwritesExactly(s, k, t, Get(s'.buffer, Taken(s')[i].0));
    }
  }

  // ---------------------------------------------------------------- whole runs

  /** No accepted event overwrites a group that counts more than `n`. */
  ghost predicate SparesAbove(s: Source, inputs: seq<Input>, n: nat)
    decreases |inputs|
  {
    inputs == [] ||
    match inputs[0]
    case Inactive => SparesAbove(GenerateAfterInactive(s).source, inputs[1..], n)
    case Event(k, t) =>
      match Accept(s, k, t)
      case Err(s') => SparesAbove(s', inputs[1..], n)
      case Ok(e) => (forall g | Overwrites(s, k, t, g) :: g.count <= n) && SparesAbove(e.source, inputs[1..], n)
  }

  /** What the groups count above `n` each. */
  function Above(gs: seq<Group>, n: nat): nat {
    if gs == [] then 0 else (if gs[0].count > n then gs[0].count - n else 0) + Above(gs[1..], n)
  }

  lemma {:induction false} AboveAppend(a: seq<Group>, b: seq<Group>, n: nat)
    ensures Above(a + b, n) == Above(a, n) + Above(b, n)
  {
    if a == [] {
      assert a + b == b;
    } else {
      AboveAppend(a[1..], b, n);
      assert (a + b)[1..] == a[1..] + b;
    }
  }

  lemma {:induction false} NothingAbove(gs: seq<Group>, n: nat)
    ensures Above(gs, n) == 0 <==> forall g :: g in gs ==> g.count <= n
  {
    if gs != [] {
      NothingAbove(gs[1..], n);
      assert forall g :: g in gs <==> g == gs[0] || g in gs[1..];
    }
  }

  lemma AcceptLosesExactly(s: Source, k: Key, t: Time, n: nat)
    requires WellFormed(s) && Accept(s, k, t).Ok?
    ensures Above(Accept(s, k, t).value.replaced, n) == 0 <==> forall g | Overwrites(s, k, t, g) :: g.count <= n
  {
    var replaced := Accept(s, k, t).value.replaced;
    NothingAbove(replaced, n);
    forall g
      ensures g in replaced <==> Overwrites(s, k, t, g)
    {
      OverwritesExactly(s, k, t, g);
    }
  }

  /** A run loses counts above `n` if and only if some accepted event overwrites such a group. */
  lemma {:induction false} RunLosesExactly(s: Source, inputs: seq<Input>, l: Ledger, n: nat)
    requires Balanced(s, l)
    ensures var lost := Above(Run(s, inputs, l).1.replaced, n);
            lost >= Above(l.replaced, n) && (lost == Above(l.replaced, n) <==> SparesAbove(s, inputs, n))
    decreases |inputs|
  {
    if inputs != [] {
      match inputs[0]
      case Inactive =>
        var e := GenerateAfterInactive(s);
        EveryEventIsCountedOnce(s, [Inactive], l);
        RunLosesExactly(e.source, inputs[1..], l.(yielded := l.yielded + e.yielded), n);
      case Event(k, t) =>
        AcceptKeepsBalance(s, k, t, l);
        match Accept(s, k, t) {
          case Err(s') => RunLosesExactly(s', inputs[1..], l, n);
          case Ok(e) =>
            AcceptLosesExactly(s, k, t, n);
            AboveAppend(l.replaced, e.replaced, n);
            RunLosesExactly(e.source, inputs[1..], Booked(l, e), n);
        }
    }
  }

  function Unseen(tolerance: Time): Source {
    Source(None, tolerance, [], [])
  }

  const NOTHING_YET := Ledger(0, 0, [], [])

  lemma {:induction false} AboveZero(gs: seq<Group>)
    ensures Above(gs, 0) == Sum(gs)
  {
    if gs != [] {
      AboveZero(gs[1..]);
    }
  }

  /** The plain law, over any run of a source in any order of times: every accepted event is counted in a
      group that is held or was yielded, if and only if no accepted event overwrites a group that counts
      anything. */
  lemma NothingIsLostExactlyWithoutCollisions(tolerance: Time, inputs: seq<Input>)
    ensures var (s, l) := Run(Unseen(tolerance), inputs, NOTHING_YET);
            l.accepted == Held(s) + Sum(l.yielded) <==> SparesAbove(Unseen(tolerance), inputs, 0)
  {
    EveryEventIsCountedOnce(Unseen(tolerance), inputs, NOTHING_YET);
    RunLosesExactly(Unseen(tolerance), inputs, NOTHING_YET, 0);
    AboveZero(Run(Unseen(tolerance), inputs, NOTHING_YET).1.replaced);
  }

  // ---------------------------------------------------------------- what is published

  ghost predicate Positive(d: Groups) {
    forall i :: 0 <= i < |d| ==> d[i].1.count >= 1
  }

  ghost predicate AllPositive(gs: seq<Group>) {
    forall i :: 0 <= i < |gs| ==> gs[i].count >= 1
  }

  /** Every group counts at least the event that started it. */
  ghost predicate Counting(s: Source) {
    Positive(s.groups) && Positive(s.buffer)
  }

  /** Of groups that count at least 1: all counts, less one for each group. */
  lemma {:induction false} AboveOne(gs: seq<Group>)
    requires AllPositive(gs)
    ensures Above(gs, 1) + |gs| == Sum(gs)
  {
    if gs != [] {
      AboveOne(gs[1..]);
    }
  }

  lemma {:induction false} ValuesPositive(d: Groups)
    requires Positive(d)
    ensures AllPositive(Values(d))
  {
    if d != [] {
      ValuesPositive(d[1..]);
    }
  }

  lemma {:induction false} PutAllPositive(buffer: Groups, items: Groups)
    requires Positive(buffer) && Positive(items)
    ensures Positive(PutAll(buffer, items)) && AllPositive(AllOverwritten(buffer, items))
    decreases |items|
  {
    if items != [] {
      PutAllPositive(Put(buffer, items[0].0, items[0].1), items[1..]);
    }
  }

  /** An event's effect on the counting. */
  ghost predicate KeepsCounting(e: Effect) {
    Counting(e.source) && AllPositive(e.yielded) && AllPositive(e.replaced)
  }

  lemma PutLastPositive(d: Groups, k: Key, g: Group)
    requires Positive(d) && Has(d, k) && g.count >= 1
    ensures Positive(PutLast(d, k, g))
  {
    forall j | 0 <= j < |d|
      ensures PutLast(d, k, g)[j].1.count >= 1
    {
      PutLastAt(d, k, g, j);
    }
  }

  lemma KnownKeepsCounting(s: Source, time: Time, k: Key, t: Time)
    requires Counting(s) && Has(s.groups, k)
    ensures KeepsCounting(KnownEvent(s, time, k, t))
  {
    var g := Get(s.groups, k);
    PutLastPositive(s.groups, k, Group(t, t, 1));
    PutLastPositive(s.groups, k, Counted(g.(until := Max(g.until, t))));
  }

  lemma LateKeepsCounting(s: Source, k: Key, t: Time)
    requires Counting(s) && LateEvent(s, k, t).Ok?
    ensures KeepsCounting(LateEvent(s, k, t).value)
  {
  }

  lemma ProcessKeepsCounting(s: Source, k: Key, t: Time)
    requires Counting(s) && ProcessEvent(s, k, t).Ok?
    ensures KeepsCounting(ProcessEvent(s, k, t).value)
  {
    var time := if s.time == None then t else s.time.value;
    var s0 := s.(time := Some(time));
    if t + s.tolerance < time {
      LateKeepsCounting(s0, k, t);
    } else if Has(s.groups, k) {
      KnownKeepsCounting(s0, time, k, t);
    }
  }

  lemma GenerateKeepsCounting(s: Source)
    requires Counting(s) && s.time.Some?
    ensures KeepsCounting(GenerateSuppressed(s))
  {
    PutAllPositive(s.buffer, Taken(s));
    var buffer := PutAll(s.buffer, Taken(s));
    var m := Ripe(buffer, s.time.value - s.tolerance);
    ValuesPositive(buffer[..m]);
  }

  lemma AcceptKeepsCounting(s: Source, k: Key, t: Time)
    requires Counting(s)
    ensures match Accept(s, k, t)
            case Err(s') => Counting(s')
            case Ok(e) => KeepsCounting(e)
  {
    if ProcessEvent(s, k, t).Ok? {
      TimeIsSet(s, k, t);
      ProcessKeepsCounting(s, k, t);
      GenerateKeepsCounting(ProcessEvent(s, k, t).value.source);
    }
  }

  ghost predicate CountingLedger(l: Ledger) {
    AllPositive(l.yielded) && AllPositive(l.replaced)
  }

  lemma {:induction false} RunKeepsCounting(s: Source, inputs: seq<Input>, l: Ledger)
    requires Counting(s) && CountingLedger(l)
    ensures Counting(Run(s, inputs, l).0) && CountingLedger(Run(s, inputs, l).1)
    decreases |inputs|
  {
    if inputs != [] {
      match inputs[0]
      case Inactive =>
        var e := GenerateAfterInactive(s);
        ValuesPositive(s.buffer);
        ValuesPositive(s.groups);
        RunKeepsCounting(e.source, inputs[1..], l.(yielded := l.yielded + e.yielded));
      case Event(k, t) =>
        AcceptKeepsCounting(s, k, t);
        match Accept(s, k, t) {
          case Err(s') => RunKeepsCounting(s', inputs[1..], l);
          case Ok(e) => RunKeepsCounting(e.source, inputs[1..], Booked(l, e));
        }
    }
  }

  /** The repeats: the events counted after the first one of each group. */
  function Repeats(gs: seq<Group>): nat {
    Above(gs, 1)
  }

  /** Of each group the first event is published at once, and the others by the count of the yielded group,
      when it is above 1.  So over any run of a source, in any order of times, every accepted event has been
      published or its group is still held, if and only if no accepted event overwrites a group that counts
      more than 1. */
  lemma EverythingIsPublishedExactly(tolerance: Time, inputs: seq<Input>)
    ensures var (s, l) := Run(Unseen(tolerance), inputs, NOTHING_YET);
            l.accepted == l.news + Repeats(l.yielded) + Repeats(Values(s.groups)) + Repeats(Values(s.buffer))
            <==> SparesAbove(Unseen(tolerance), inputs, 1)
  {
    var (s, l) := Run(Unseen(tolerance), inputs, NOTHING_YET);
    EveryEventIsCountedOnce(Unseen(tolerance), inputs, NOTHING_YET);
    RunKeepsCounting(Unseen(tolerance), inputs, NOTHING_YET);
    RunLosesExactly(Unseen(tolerance), inputs, NOTHING_YET, 1);
    ValuesPositive(s.groups);
    ValuesPositive(s.buffer);
    AboveOne(Values(s.groups));
    AboveOne(Values(s.buffer));
    AboveOne(l.yielded);
    AboveOne(l.replaced);
  }

  // ---------------------------------------------------------------- events in time order

  /** The next event makes some group stale whose key is still in the buffer. */
  ghost predicate StaleWhileBuffered(s: Source, t: Time) {
    exists i :: 0 <= i < |s.groups| && Stale(s.groups[i].1, t) && Has(s.buffer, s.groups[i].0)
  }

  /** In time order the present group of a key ends exactly when it is stale. */
  lemma RollsOverIfStale(s: Source, k: Key, t: Time)
    requires Tidy(s) && Has(s.groups, k) && s.time.Some? && s.time.value <= t
    ensures RollsOver(s, k, t) <==> Stale(Get(s.groups, k), t)
  {
    var g := Get(s.groups, k);
    assert !Stale(g, s.time.value) && g.until <= s.time.value;
    if Date(t) != Date(s.time.value) {
      LaterDate(s.time.value, t);
    }
  }

  /** In time order the scan takes exactly the stale groups of the processed source. */
  lemma TakenAreStale(s: Source, j: nat)
    requires Processed(s) && j < |s.groups|
    ensures j < |Taken(s)| <==> Stale(s.groups[j].1, s.time.value)
    ensures j < |Taken(s)| ==> Taken(s)[j] == s.groups[j]
  {
    ScanTakesExactlyTheStale(s.groups, s.time.value, false);
  }

  /** A present group's key: where another group stands after the event. */
  lemma BesideKnown(s: Source, time: Time, k: Key, t: Time, j: nat)
    requires Has(s.groups, k) && j < |s.groups| - 1
    ensures var s', i := KnownEvent(s, time, k, t).source, if j < Index(s.groups, k) then j else j + 1;
            && |s'.groups| == |s.groups| && s'.groups[j] == s.groups[i]
            && (s.groups[i].0 != k ==> (Has(s'.buffer, s.groups[i].0) <==> Has(s.buffer, s.groups[i].0)))
  {
    var g := Get(s.groups, k);
    PutLastAt(s.groups, k, Group(t, t, 1), j);
    PutLastAt(s.groups, k, Counted(g.(until := Max(g.until, t))), j);
    var x := s.groups[if j < Index(s.groups, k) then j else j + 1].0;
    if x != k {
      PutOther(s.buffer, k, g, x);
    }
  }

  /** Where a group of another key stands after the event. */
  lemma OtherGroup(s: Source, k: Key, t: Time, i: nat) returns (j: nat)
    requires Tidy(s) && (s.time.Some? ==> s.time.value <= t) && i < |s.groups| && s.groups[i].0 != k
    ensures ProcessEvent(s, k, t).Ok?
    ensures var s' := ProcessEvent(s, k, t).value.source;
            && j < |s'.groups| && s'.groups[j] == s.groups[i]
            && (Has(s'.buffer, s.groups[i].0) <==> Has(s.buffer, s.groups[i].0))
  {
    if Has(s.groups, k) {
      j := if i < Index(s.groups, k) then i else i - 1;
      BesideKnown(s, s.time.value, k, t, j);
    } else {
      j := i;
    }
  }

  /** The event's own group is not stale, and every other group was there before. */
  lemma FormerGroup(s: Source, k: Key, t: Time, j: nat) returns (i: nat)
    requires Tidy(s) && (s.time.Some? ==> s.time.value <= t) && ProcessEvent(s, k, t).Ok?
    requires j < |ProcessEvent(s, k, t).value.source.groups|
    requires Stale(ProcessEvent(s, k, t).value.source.groups[j].1, t)
    ensures var s' := ProcessEvent(s, k, t).value.source;
            && i < |s.groups| && s.groups[i] == s'.groups[j] && s.groups[i].0 != k
            && (Has(s'.buffer, s.groups[i].0) <==> Has(s.buffer, s.groups[i].0))
  {
    if Has(s.groups, k) {
      var g := Get(s.groups, k);
      PutLastAt(s.groups, k, Group(t, t, 1), j);
      PutLastAt(s.groups, k, Counted(g.(until := Max(g.until, t))), j);
      i := if j < Index(s.groups, k) then j else j + 1;
      PutOther(s.buffer, k, g, s.groups[i].0);
    } else {
      i := j;
    }
  }

  /** For events in time order the condition needs only the state before the call: the event loses a
      group if and only if it makes one stale while an older group of the same key is in the buffer. */
  lemma CollidesInOrder(s: Source, k: Key, t: Time)
    requires Tidy(s) && (s.time.Some? ==> s.time.value <= t)
    ensures ProcessEvent(s, k, t).Ok? && (Collides(s, k, t) <==> StaleWhileBuffered(s, t))
  {
    ProcessInOrder(s, k, t);
    var s' := ProcessEvent(s, k, t).value.source;
    if Has(s.groups, k) {
      RollsOverIfStale(s, k, t);
    }
    if StaleWhileBuffered(s, t) {
      var i :| 0 <= i < |s.groups| && Stale(s.groups[i].1, t) && Has(s.buffer, s.groups[i].0);
      if s.groups[i].0 == k {
        assert Index(s.groups, k) == i;
      } else {
        var j := OtherGroup(s, k, t, i);
        TakenAreStale(s', j);
        assert Has(s'.buffer, Taken(s')[j].0);
      }
    }
    if SomeBuffered(Taken(s'), s'.buffer) {
      var j :| 0 <= j < |Taken(s')| && Has(s'.buffer, Taken(s')[j].0);
      TakenAreStale(s', j);
      var i := FormerGroup(s, k, t, j);
    }
  }

  // ---------------------------------------------------------------- with and without a tolerance

  ghost predicate AllBefore(d: Groups, time: Time) {
    forall i :: 0 <= i < |d| ==> d[i].1.until < time
  }

  lemma {:induction false} RipeTakesAll(buffer: Groups, cutoff: Time)
    requires AllBefore(buffer, cutoff)
    ensures Ripe(buffer, cutoff) == |buffer|
  {
    if buffer != [] {
      RipeTakesAll(buffer[1..], cutoff);
    }
  }

  lemma {:induction false} PutAllBefore(buffer: Groups, items: Groups, time: Time)
    requires AllBefore(buffer, time) && AllBefore(items, time)
    ensures AllBefore(PutAll(buffer, items), time)
    decreases |items|
  {
    if items != [] {
      PutAllBefore(Put(buffer, items[0].0, items[0].1), items[1..], time);
    }
  }

  /** A group moved to the buffer ended before the event. */
  lemma MovedEndedBefore(s: Source, k: Key, t: Time)
    requires Tidy(s) && s.buffer == [] && (s.time.Some? ==> s.time.value <= t) && ProcessEvent(s, k, t).Ok?
    ensures AllBefore(ProcessEvent(s, k, t).value.source.buffer, t)
  {
    if Has(s.groups, k) {
      RollsOverIfStale(s, k, t);
      assert Get(s.groups, k).until <= t;
    }
  }

  lemma GenerateEmptiesBuffer(s: Source)
    requires Processed(s) && s.tolerance == 0 && AllBefore(s.buffer, s.time.value)
    ensures GenerateSuppressed(s).source.buffer == []
  {
    forall j | 0 <= j < |Taken(s)|
      ensures Taken(s)[j].1.until < s.time.value
    {
      TakenAreStale(s, j);
    }
    PutAllBefore(s.buffer, Taken(s), s.time.value);
    RipeTakesAll(PutAll(s.buffer, Taken(s)), s.time.value);
  }

  /** Without a tolerance the buffer is empty between events in time order. */
  lemma BufferIsEmptied(s: Source, k: Key, t: Time)
    requires Tidy(s) && s.tolerance == 0 && s.buffer == [] && (s.time.Some? ==> s.time.value <= t)
    ensures Accept(s, k, t).Ok? && Accept(s, k, t).value.source.buffer == []
    ensures Accept(s, k, t).value.source.tolerance == 0 && Accept(s, k, t).value.replaced == []
  {
    ProcessInOrder(s, k, t);
    ProcessEventBalances(s, k, t);
    MovedEndedBefore(s, k, t);
    GenerateEmptiesBuffer(ProcessEvent(s, k, t).value.source);
    CollidesInOrder(s, k, t);
    OverwritesNothingExactly(s, k, t);
  }

  lemma {:induction false} NothingIsLostWithoutTolerance(s: Source, inputs: seq<Input>, l: Ledger)
    requires Tidy(s) && s.tolerance == 0 && s.buffer == [] && InOrder(inputs, s.time)
    ensures Run(s, inputs, l).1.replaced == l.replaced
    decreases |inputs|
  {
    if inputs != [] {
      InOrderRest(inputs, s.time);
      match inputs[0]
      case Inactive =>
        InactiveKeepsTidy(s);
        var e := GenerateAfterInactive(s);
        NothingIsLostWithoutTolerance(e.source, inputs[1..], l.(yielded := l.yielded + e.yielded));
      case Event(k, t) =>
        AcceptInOrder(s, k, t);
        BufferIsEmptied(s, k, t);
        var e := Accept(s, k, t).value;
        NothingIsLostWithoutTolerance(e.source, inputs[1..], Booked(l, e));
    }
  }

  /** Three events of one key around midnight, and 13 hours later one of another key. */
  function AroundMidnight(k: Key, x: Key): seq<Input> {
    [Event(k, DAY - 1), Event(k, DAY - 1), Event(k, DAY), Event(x, DAY + 13 * HOUR)]
  }

  lemma FirstEvent(tolerance: Time, k: Key)
    requires tolerance >= 1
    ensures var g := Group(DAY - 1, DAY - 1, 1);
            Accept(Unseen(tolerance), k, DAY - 1)
            == Ok(Effect(Source(Some(DAY - 1), tolerance, [(k, g)], []), true, [], []))
  {
    var g := Group(DAY - 1, DAY - 1, 1);
    assert Scan([(k, g)], DAY - 1, false) == 0;
  }

  /** The second event is a repeat: nothing is published for it yet. */
  lemma SecondEvent(tolerance: Time, k: Key)
    requires tolerance >= 1
    ensures var g, h := Group(DAY - 1, DAY - 1, 1), Group(DAY - 1, DAY - 1, 2);
            Accept(Source(Some(DAY - 1), tolerance, [(k, g)], []), k, DAY - 1)
            == Ok(Effect(Source(Some(DAY - 1), tolerance, [(k, h)], []), false, [], []))
  {
    var g, h := Group(DAY - 1, DAY - 1, 1), Group(DAY - 1, DAY - 1, 2);
    var s := Source(Some(DAY - 1), tolerance, [(k, h)], []);
    assert ProcessEvent(Source(Some(DAY - 1), tolerance, [(k, g)], []), k, DAY - 1)
           == Ok(Effect(s, false, [], [])) by {
      assert PutLast([(k, g)], k, h) == [(k, h)];
    }
    assert GenerateSuppressed(s) == Effect(s, false, [], []) by {
      assert Scan([(k, h)], DAY - 1, false) == 0;
    }
  }

  /** The first group moves to the buffer, and stays there. */
  lemma ThirdEvent(tolerance: Time, k: Key)
    requires tolerance >= 1
    ensures var g, h := Group(DAY - 1, DAY - 1, 2), Group(DAY, DAY, 1);
            Accept(Source(Some(DAY - 1), tolerance, [(k, g)], []), k, DAY)
            == Ok(Effect(Source(Some(DAY), tolerance, [(k, h)], [(k, g)]), true, [], []))
  {
    var g, h := Group(DAY - 1, DAY - 1, 2), Group(DAY, DAY, 1);
    var s := Source(Some(DAY), tolerance, [(k, h)], [(k, g)]);
    assert ProcessEvent(Source(Some(DAY - 1), tolerance, [(k, g)], []), k, DAY) == Ok(Effect(s, true, [], [])) by {
      assert PutLast([(k, g)], k, h) == [(k, h)] && Put([], k, g) == [(k, g)];
    }
    assert GenerateSuppressed(s) == Effect(s, false, [], []) by {
      assert Scan([(k, h)], DAY, false) == 0 && Ripe([(k, g)], DAY - tolerance) == 0;
    }
  }

  /** The second group is silent for 13 hours, and is moved over the first one. */
  lemma FourthEvent(tolerance: Time, k: Key, x: Key)
    requires tolerance >= 1 && k != x
    ensures var g, h := Group(DAY - 1, DAY - 1, 2), Group(DAY, DAY, 1);
            var s := Source(Some(DAY), tolerance, [(k, h)], [(k, g)]);
            && Accept(s, x, DAY + 13 * HOUR).Ok?
            && Accept(s, x, DAY + 13 * HOUR).value.replaced == [g]
  {
    var g, h, i := Group(DAY - 1, DAY - 1, 2), Group(DAY, DAY, 1), Group(DAY + 13 * HOUR, DAY + 13 * HOUR, 1);
    var groups := [(k, h), (x, i)];
    assert [(k, h)] + [(x, i)] == groups;
    assert Scan(groups[1..], DAY + 13 * HOUR, false) == 0;
    assert groups[..1] == [(k, h)];
    assert AllOverwritten([(k, g)], [(k, h)]) == [g];
  }

  lemma RunAccepts(s: Source, i: Input, rest: seq<Input>, l: Ledger, e: Effect)
    requires i.Event? && Accept(s, i.key, i.time) == Ok(e)
    ensures Run(s, [i] + rest, l) == Run(e.source, rest, Booked(l, e))
  {
    assert ([i] + rest)[1..] == rest;
  }

  lemma RunOfTwo(s: Source, a: Input, b: Input, l: Ledger, e: Effect, f: Effect)
    requires a.Event? && Accept(s, a.key, a.time) == Ok(e)
    requires b.Event? && Accept(e.source, b.key, b.time) == Ok(f)
    ensures Run(s, [a] + [b], l).1 == Booked(Booked(l, e), f)
  {
    RunAccepts(s, a, [b], l, e);
    assert [b] == [b] + [];
    RunAccepts(e.source, b, [], Booked(l, e), f);
  }

  lemma RunAcceptsTwo(s: Source, a: Input, b: Input, rest: seq<Input>, l: Ledger, e: Effect, f: Effect)
    requires a.Event? && Accept(s, a.key, a.time) == Ok(e)
    requires b.Event? && Accept(e.source, b.key, b.time) == Ok(f)
    ensures Run(s, [a] + ([b] + rest), l) == Run(f.source, rest, Booked(Booked(l, e), f))
  {
    RunAccepts(s, a, [b] + rest, l, e);
    RunAccepts(e.source, b, rest, Booked(l, e), f);
  }

  lemma RunOfFour(s: Source, a: Input, b: Input, c: Input, d: Input, l: Ledger,
      e: Effect, f: Effect, g: Effect, h: Effect)
    requires a.Event? && Accept(s, a.key, a.time) == Ok(e)
    requires b.Event? && Accept(e.source, b.key, b.time) == Ok(f)
    requires c.Event? && Accept(f.source, c.key, c.time) == Ok(g)
    requires d.Event? && Accept(g.source, d.key, d.time) == Ok(h)
    ensures Run(s, [a] + ([b] + ([c] + [d])), l).1 == Booked(Booked(Booked(Booked(l, e), f), g), h)
  {
    RunAcceptsTwo(s, a, b, [c] + [d], l, e, f);
    RunOfTwo(f.source, c, d, Booked(Booked(l, e), f), g, h);
  }

  lemma AroundMidnightInOrder(k: Key, x: Key)
    ensures InOrder(AroundMidnight(k, x), None)
    ensures var a := Event(k, DAY - 1);
            AroundMidnight(k, x) == [a] + ([a] + ([Event(k, DAY)] + [Event(x, DAY + 13 * HOUR)]))
  {
  }

  /** With any tolerance a repeat may get lost even in time order: the first two events are counted in one
      group, which is overwritten, so that nothing is ever published of the second one. */
  lemma AroundMidnightLosesACount(tolerance: Time, k: Key, x: Key)
    requires tolerance >= 1 && k != x
    ensures InOrder(AroundMidnight(k, x), None)
    ensures Run(Unseen(tolerance), AroundMidnight(k, x), NOTHING_YET).1.replaced
            == [Group(DAY - 1, DAY - 1, 2)]
  {
    var g1, g2, h := Group(DAY - 1, DAY - 1, 1), Group(DAY - 1, DAY - 1, 2), Group(DAY, DAY, 1);
    var s1 := Source(Some(DAY - 1), tolerance, [(k, g1)], []);
    var s2 := Source(Some(DAY - 1), tolerance, [(k, g2)], []);
    var s3 := Source(Some(DAY), tolerance, [(k, h)], [(k, g2)]);
    FirstEvent(tolerance, k);
    SecondEvent(tolerance, k);
    ThirdEvent(tolerance, k);
    FourthEvent(tolerance, k, x);
    AroundMidnightInOrder(k, x);
    var a := Event(k, DAY - 1);
    RunOfFour(Unseen(tolerance), a, a, Event(k, DAY), Event(x, DAY + 13 * HOUR), NOTHING_YET,
              Effect(s1, true, [], []), Effect(s2, false, [], []), Effect(s3, true, [], []),
              Accept(s3, x, DAY + 13 * HOUR).value);
  }

  /** For a source whose events come in time order: no run loses a repeat if and only if the source has no time
      tolerance; then no run overwrites anything at all. */
  lemma SafeExactlyWithoutTolerance(tolerance: Time)
    requires tolerance >= 0
    ensures (forall inputs, g | InOrder(inputs, None) ::
               g in Run(Unseen(tolerance), inputs, NOTHING_YET).1.replaced ==> g.count <= 1)
            <==> tolerance == 0
    ensures tolerance == 0 ==>
              forall inputs | InOrder(inputs, None) :: Run(Unseen(tolerance), inputs, NOTHING_YET).1.replaced == []
  {
    if tolerance == 0 {
      forall inputs | InOrder(inputs, None)
        ensures Run(Unseen(tolerance), inputs, NOTHING_YET).1.replaced == []
      {
        NothingIsLostWithoutTolerance(Unseen(tolerance), inputs, NOTHING_YET);
      }
    } else {
      AroundMidnightLosesACount(tolerance, "a", "b");
      assert Group(DAY - 1, DAY - 1, 2) in Run(Unseen(tolerance), AroundMidnight("a", "b"), NOTHING_YET).1.replaced;
    }
  }
}
