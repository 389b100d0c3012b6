/** When the notifier writes to a client, and what it counts. */
module Notifier {
  import opened Options

  type Day = int        // the proleptic ordinal: day 1 is a Monday
  type Time = int       // seconds since the start of day 0

  const DAY := 24 * 3600

  // ---------------------------------------------------------------- business days

  /** The configured days off. */
  type Calendar = Day -> bool

  /** `get_is_business_day()` */
  predicate IsBusinessDay(daysOff: Calendar, d: Day) {
    d % 7 != 6 && d % 7 != 0 && !daysOff(d)
  }

  datatype Weekday = Monday | Tuesday | Wednesday | Thursday | Friday | Saturday | Sunday

  function Next(w: Weekday): Weekday {
    match w
    case Monday => Tuesday
    case Tuesday => Wednesday
    case Wednesday => Thursday
    case Thursday => Friday
    case Friday => Saturday
    case Saturday => Sunday
    case Sunday => Monday
  }

  /** Counting on from the first day of the calendar. */
  function WeekdayOf(d: Day): Weekday
    requires d >= 1
  {
    if d == 1 then Monday else Next(WeekdayOf(d - 1))
  }

  /** `isoweekday()` */
  function Number(w: Weekday): nat {
    match w
    case Monday => 1
    case Tuesday => 2
    case Wednesday => 3
    case Thursday => 4
    case Friday => 5
    case Saturday => 6
    case Sunday => 7
  }

  lemma {:induction false} WeekdayNumber(d: Day)
    requires d >= 1
    ensures Number(WeekdayOf(d)) == if d % 7 == 0 then 7 else d % 7
    decreases d
  {
    if d > 1 {
      WeekdayNumber(d - 1);
    }
  }

  /** Business days are the days from Monday to Friday that are not configured as days off. */
  lemma BusinessDayExactly(daysOff: Calendar, d: Day)
    requires d >= 1
    ensures IsBusinessDay(daysOff, d) <==> WeekdayOf(d) != Saturday && WeekdayOf(d) != Sunday && !daysOff(d)
  {
    WeekdayNumber(d);
  }

  ghost predicate EarlierBusinessDayExists(daysOff: Calendar) {
    forall d :: HasEarlierBusinessDay(daysOff, d)
  }

  ghost predicate HasEarlierBusinessDay(daysOff: Calendar, d: Day) {
    exists e :: e < d && IsBusinessDay(daysOff, e)
  }

  /** `get_previous_business_day_from_date()` */
  method GetPreviousBusinessDay(daysOff: Calendar, d: Day) returns (r: Day)
    requires EarlierBusinessDayExists(daysOff)
    ensures r < d && IsBusinessDay(daysOff, r)
    ensures forall e :: r < e < d ==> !IsBusinessDay(daysOff, e)
  {
    assert HasEarlierBusinessDay(daysOff, d);
    ghost var e :| e < d && IsBusinessDay(daysOff, e);
    r := d - 1;
    while !IsBusinessDay(daysOff, r)
      invariant e <= r < d
      invariant forall x :: r < x < d ==> !IsBusinessDay(daysOff, x)
      decreases r - e
    {
      r := r - 1;
    }
  }

  // ---------------------------------------------------------------- slots

  function DateOf(t: Time): Day {
    t / DAY
  }

  function Slot(d: Day, time: nat): Time {
    d * DAY + time
  }

  /** A slot is that second of that day, of 86400 seconds. */
  lemma SlotExactly(d: Day, time: nat, t: Time)
    requires time < 86400
    ensures Slot(d, time) == t <==> d * 86400 <= t < (d + 1) * 86400 && t - d * 86400 == time
    ensures DateOf(Slot(d, time)) == d
    ensures DateOf(t) == d <==> d * 86400 <= t < (d + 1) * 86400
  {
  }

  ghost predicate LegalTimes(times: seq<nat>) {
    && times != []
    && (forall i | 0 <= i < |times| :: times[i] < DAY)
    && (forall i, j | 0 <= i < j < |times| :: times[i] <= times[j])
  }

  ghost predicate SlotDue(d: Day, times: seq<nat>, lastSend: Time, now: Time) {
    exists i :: 0 <= i < |times| && lastSend < Slot(d, times[i]) <= now
  }

  /** Some slot of today, or of an earlier business day, lies after the last message and not after now. */
  ghost predicate Due(daysOff: Calendar, times: seq<nat>, lastSend: Time, now: Time) {
    exists d :: (d == DateOf(now) || (d < DateOf(now) && IsBusinessDay(daysOff, d))) && SlotDue(d, times, lastSend, now)
  }

  lemma EarlierDaysEarlierSlots(d: Day, e: Day, a: nat, b: nat)
    requires d < e && a < DAY && b < DAY
    ensures Slot(d, a) < Slot(e, b)
  {
  }

  /** A slot before the last message: none of that day before it, and none of an earlier day, is due. */
  lemma NothingBefore(d: Day, times: seq<nat>, i: nat, lastSend: Time, now: Time)
    requires LegalTimes(times) && i < |times| && Slot(d, times[i]) < lastSend
    ensures forall j | 0 <= j <= i :: Slot(d, times[j]) < lastSend
    ensures forall e | e < d :: !SlotDue(e, times, lastSend, now)
  {
    forall e, j | e < d && 0 <= j < |times|
      ensures Slot(e, times[j]) < lastSend
    {
      EarlierDaysEarlierSlots(e, d, times[j], times[i]);
    }
  }

  /** `notify_client()`: the backward search ends, and finds out exactly whether a slot is due. */
  method NotifyClient(daysOff: Calendar, times: seq<nat>, lastSend: Time, now: Time) returns (due: bool)
    requires LegalTimes(times) && EarlierBusinessDayExists(daysOff)
    ensures due <==> Due(daysOff, times, lastSend, now)
  {
    var incDate := DateOf(now);
    while true
      invariant incDate == DateOf(now) || (incDate < DateOf(now) && IsBusinessDay(daysOff, incDate))
      invariant forall d | d > incDate && (d == DateOf(now) || (d < DateOf(now) && IsBusinessDay(daysOff, d))) ::
                  !SlotDue(d, times, lastSend, now)
      decreases incDate - DateOf(lastSend)
    {
      var n := |times|;
      while n > 0
        invariant 0 <= n <= |times|
        invariant forall j | n <= j < |times| :: lastSend <= Slot(incDate, times[j])
        invariant forall j | n <= j < |times| :: !(lastSend < Slot(incDate, times[j]) <= now)
      {
        var slot := Slot(incDate, times[n - 1]);
        if lastSend > slot {
          NothingBefore(incDate, times, n - 1, lastSend, now);
          return false;
        } else if lastSend < slot <= now {
          assert SlotDue(incDate, times, lastSend, now);
          return true;
        }
        n := n - 1;
      }
      SlotBound(incDate, times[0], lastSend);
      incDate := GetPreviousBusinessDay(daysOff, incDate);
    }
  }

  /** A day whose slots are not before the last message is not before the day of it. */
  lemma SlotBound(d: Day, time: nat, lastSend: Time)
    requires time < DAY && lastSend <= Slot(d, time)
    ensures DateOf(lastSend) <= d
  {
  }

  // ---------------------------------------------------------------- counters

  type Counter = map<string, nat>

  function CountOf(c: Counter, key: string): nat {
    if key in c then c[key] else 0
  }

  /** `get_counter_to_send()`, of the categories: what has grown since the last message. */
  function CounterToSend(raw: Counter, last: Counter): Counter {
    map key | key in raw && (key !in last || raw[key] > last[key]) ::
      raw[key] - CountOf(last, key)
  }

  /** There is something to tell if and only if some category is new or has grown since the last message. */
  lemma TellsExactlyWhatGrew(raw: Counter, last: Counter)
    ensures CounterToSend(raw, last) != map[]
            <==> exists key :: key in raw && (key in last ==> raw[key] > last[key])
    ensures forall key | key in CounterToSend(raw, last) ::
              CounterToSend(raw, last)[key] + (if key in last then last[key] else 0) == raw[key]
  {
    var sent := CounterToSend(raw, last);
    if sent != map[] {
      var key :| key in sent;
      assert key in raw && (key in last ==> raw[key] > last[key]);
    }
    if key :| key in raw && (key in last ==> raw[key] > last[key]) {
      assert key in sent;
    }
  }

  /** One run: the counters found, how many of the client's addresses a message has reached (none when none
      is due, fewer than all when sending fails midway), and whether the counters told were recorded then. */
  datatype Run = Run(raw: Counter, reached: nat, recorded: bool)

  /** The counters are recorded only after a message to all addresses. */
  ghost predicate Legal(runs: seq<Run>, addresses: nat) {
    forall i :: 0 <= i < |runs| ==> runs[i].reached <= addresses && (runs[i].recorded ==> runs[i].reached == addresses)
  }

  /** The recorded counters after a run. */
  function LastAfter(last: Counter, r: Run): Counter {
    if r.recorded && CounterToSend(r.raw, last) != map[] then last + r.raw else last
  }

  /** Only a recorded message changes what is recorded; then nothing is left to tell, and what was not counted
      this time stays recorded. */
  lemma RecordsExactly(last: Counter, r: Run)
    ensures var next := LastAfter(last, r);
            && (!r.recorded ==> next == last)
            && (r.recorded ==> CounterToSend(r.raw, next) == map[])
            && (forall key | key in last && key !in r.raw :: key in next && next[key] == last[key])
            && (forall key | key in next :: key in last || (key in r.raw && next[key] == r.raw[key]))
  {
    var sent := CounterToSend(r.raw, last);
    if r.recorded && sent == map[] {
      assert forall key | key in r.raw :: key !in sent;
    }
  }

  function LastAfterAll(last: Counter, runs: seq<Run>): Counter
    decreases |runs|
  {
    if runs == [] then last else LastAfterAll(LastAfter(last, runs[0]), runs[1..])
  }

  /** What one address, the `a`-th, is told of one category. */
  function SentBy(last: Counter, r: Run, a: nat, key: string): nat {
    if a < r.reached then CountOf(CounterToSend(r.raw, last), key) else 0
  }

  function TotalSent(last: Counter, runs: seq<Run>, a: nat, key: string): nat
    decreases |runs|
  {
    if runs == [] then 0 else SentBy(last, runs[0], a, key) + TotalSent(LastAfter(last, runs[0]), runs[1..], a, key)
  }

  /** What it is told in vain: in messages that were not recorded, so that later ones tell it again. */
  function Repeated(last: Counter, runs: seq<Run>, a: nat, key: string): nat
    decreases |runs|
  {
    if runs == [] then 0
    else
      (if runs[0].recorded then 0 else SentBy(last, runs[0], a, key))
      + Repeated(LastAfter(last, runs[0]), runs[1..], a, key)
  }

  /** The counters never fall below what has been recorded. */
  ghost predicate Growing(last: Counter, runs: seq<Run>)
    decreases |runs|
  {
    runs == [] || ((forall key | key in last :: key in runs[0].raw && last[key] <= runs[0].raw[key])
                   && Growing(LastAfter(last, runs[0]), runs[1..]))
  }

  /** Over any runs, messages failing midway or not due included, what the messages tell one address adds up
      to what the counters gained up to the last recorded message, and what was told in vain: nothing is left
      out. */
  lemma {:induction false} EverythingIsReported(last: Counter, runs: seq<Run>, addresses: nat, a: nat, key: string)
    requires Growing(last, runs) && Legal(runs, addresses) && a < addresses
    ensures CountOf(last, key) + TotalSent(last, runs, a, key)
            == CountOf(LastAfterAll(last, runs), key) + Repeated(last, runs, a, key)
    decreases |runs|
  {
    if runs != [] {
      var r := runs[0];
      var sent := SentBy(last, r, a, key);
      assert CountOf(last, key) + sent == CountOf(LastAfter(last, r), key) + if r.recorded then 0 else sent by {
        if r.recorded && CounterToSend(r.raw, last) == map[] {
          assert key !in CounterToSend(r.raw, last);
        }
      }
      EverythingIsReported(LastAfter(last, r), runs[1..], addresses, a, key);
    }
  }

  /** Does some message that was not recorded reach the address with something new of the category? */
  ghost predicate ToldInVain(last: Counter, runs: seq<Run>, a: nat, key: string)
    decreases |runs|
  {
    runs != [] && (|| (&& !runs[0].recorded && a < runs[0].reached
                       && key in runs[0].raw && runs[0].raw[key] > CountOf(last, key))
                   || ToldInVain(LastAfter(last, runs[0]), runs[1..], a, key))
  }

  lemma {:induction false} RepeatedExactly(last: Counter, runs: seq<Run>, a: nat, key: string)
    ensures Repeated(last, runs, a, key) > 0 <==> ToldInVain(last, runs, a, key)
    decreases |runs|
  {
    if runs != [] {
      RepeatedExactly(LastAfter(last, runs[0]), runs[1..], a, key);
    }
  }

  /** So an address is told everything exactly once if and only if no message that failed after reaching it
      had something new to tell. */
  lemma EverythingIsReportedOnce(last: Counter, runs: seq<Run>, addresses: nat, a: nat, key: string)
    requires Growing(last, runs) && Legal(runs, addresses) && a < addresses
    ensures CountOf(last, key) + TotalSent(last, runs, a, key) >= CountOf(LastAfterAll(last, runs), key)
    ensures CountOf(last, key) + TotalSent(last, runs, a, key) == CountOf(LastAfterAll(last, runs), key)
            <==> !ToldInVain(last, runs, a, key)
  {
    EverythingIsReported(last, runs, addresses, a, key);
    RepeatedExactly(last, runs, a, key);
  }
}
