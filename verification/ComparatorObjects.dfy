/** The comparator's objects, updated in place; their methods do what `Comparison` says on values. */
module ComparatorObjects {
  import opened Options
  import opened OrderedDicts
  import C = Comparison

  class SourceData {
    var time: Option<C.Time>
    var blacklist: C.Blacklist

    constructor ()
      ensures Model() == C.Source(None, [])
    {
      time, blacklist := None, [];
    }

    function Model(): C.Source
      reads this
    {
      C.Source(time, blacklist)
    }

    method UpdateTime(t: C.Time)
      requires time.Some?
      modifies `time
      ensures time == Some(if t > old(time).value then t else old(time).value)
    {
      if t > time.value {
        time := Some(t);
      }
    }

    method ProcessEvent(e: C.Event) returns (r: Result<Option<C.Published>, C.EventError>)
      modifies this
      ensures time == Some(C.CurrentTime(old(Model()), e))
      ensures r == C.ProcessEvent(old(Model()), e).1
      ensures blacklist == C.ProcessEvent(old(Model()), e).0.blacklist
    {
      if time == None {
        time := Some(e.blTime);
      }
      if e.blTime < time.value {
        return Err(C.OutOfOrder);
      }
      var key := C.EventKey(e);
      if key == None {
        return Err(C.NoKey);
      }
      var k := key.value;
      if !Has(blacklist, k) {
        blacklist := Put(blacklist, k, C.Fresh(e));
        return Ok(Some(C.New(e.id, e.expires, C.IpsOf(e))));
      }
      var event := Get(blacklist, k);
      if C.AreIpsDifferent(event.ips, C.IpsOf(e)) {
        blacklist := Put(blacklist, k, C.Fresh(e));
        r := Ok(Some(C.Change(e.id, e.expires, C.IpsOf(e), event.id)));
      } else if e.expires != event.expires {
        event := event.(expires := e.expires);
        event := event.(flag := Some(e.seriesId));
        blacklist := Put(blacklist, k, event);
        r := Ok(Some(C.Update(event.id, e.expires, event.ips)));
      } else {
        event := event.(flag := Some(e.seriesId));
        blacklist := Put(blacklist, k, event);
        r := Ok(None);
      }
    }

    /** `process_new_message()`: the event, then, unless it failed, the time. */
    method ProcessNewMessage(e: C.Event) returns (r: Result<Option<C.Published>, C.EventError>)
      modifies this
      ensures (Model(), r) == C.ProcessEvent(old(Model()), e)
    {
      r := ProcessEvent(e);
      if r.Ok? {
        UpdateTime(e.blTime);
      }
    }

    method ProcessDeleted() returns (ret: seq<C.Published>)
      requires time.Some? && Unique(blacklist)
      modifies `blacklist
      ensures (blacklist, ret) == C.ProcessDeleted(old(blacklist), time.value)
    {
      ret := [];
      var items := blacklist;
      for n := 0 to |items|
        invariant blacklist == C.ProcessDeleted(items[..n], time.value).0 + items[n..]
        invariant ret == C.ProcessDeleted(items[..n], time.value).1
      {
        var (key, event) := items[n];
        DeletedStep(items, n, time.value);
        DeletedNext(items, n, time.value);
        if event.flag == None {
          blacklist := Drop(blacklist, Index(blacklist, key));
          ret := ret + [C.Delist(event.id)];
        } else if event.expires < time.value {
          blacklist := Drop(blacklist, Index(blacklist, key));
          ret := ret + [C.Expire(event.id)];
        } else {
          event := event.(flag := None);
          blacklist := Put(blacklist, key, event);
        }
      }
      assert items[..|items|] == items && items[|items|..] == [];
      assert blacklist == C.ProcessDeleted(items, time.value).0;
    }

    method ClearFlags(flagId: C.SeriesId)
      requires Unique(blacklist)
      modifies `blacklist
      ensures blacklist == C.ClearFlags(old(blacklist), flagId)
    {
      var items := blacklist;
      for n := 0 to |items|
        invariant blacklist == C.ClearFlags(items[..n], flagId) + items[n..]
      {
        var (key, event) := items[n];
        ClearSnoc(items, n, flagId);
        if event.flag == Some(flagId) {
          ClearPlace(items, n, flagId);
          event := event.(flag := None);
          blacklist := Put(blacklist, key, event);
        }
      }
      assert items[..|items|] == items && items[|items|..] == [];
      assert blacklist == C.ClearFlags(items, flagId);
    }
  }

  lemma {:induction false} DeletedSnoc(d: C.Blacklist, time: C.Time, x: (C.Key, C.Entry))
    ensures var (r, ps) := C.ProcessDeleted(d, time);
            C.ProcessDeleted(d + [x], time)
            == if C.Stays(x.1, time) then (r + [(x.0, C.Unflagged(x.1))], ps) else (r, ps + [C.Removal(x.1)])
  {
    if d == [] {
      assert d + [x] == [x] && [x][1..] == [];
      assert C.ProcessDeleted([x][1..], time) == ([], []);
      var r: C.Blacklist, ps: seq<C.Published> := [], [];
      assert [(x.0, C.Unflagged(x.1))] + r == r + [(x.0, C.Unflagged(x.1))];
      assert [C.Removal(x.1)] + ps == ps + [C.Removal(x.1)];
    } else {
      DeletedSnoc(d[1..], time, x);
      assert (d + [x])[0] == d[0] && (d + [x])[1..] == d[1..] + [x];
      var (r, ps) := C.ProcessDeleted(d[1..], time);
      var y := (d[0].0, C.Unflagged(d[0].1));
      assert [y] + (r + [(x.0, C.Unflagged(x.1))]) == ([y] + r) + [(x.0, C.Unflagged(x.1))];
      assert [C.Removal(d[0].1)] + (ps + [C.Removal(x.1)]) == ([C.Removal(d[0].1)] + ps) + [C.Removal(x.1)];
    }
  }

  function Cleared(e: C.Entry, flag: C.SeriesId): C.Entry {
    if e.flag == Some(flag) then C.Unflagged(e) else e
  }

  lemma {:induction false} ClearAppend(d: C.Blacklist, flag: C.SeriesId, x: (C.Key, C.Entry))
    ensures C.ClearFlags(d + [x], flag) == C.ClearFlags(d, flag) + [(x.0, Cleared(x.1, flag))]
  {
    if d == [] {
      assert d + [x] == [x] && [x][1..] == [];
    } else {
      ClearAppend(d[1..], flag, x);
      assert (d + [x])[0] == d[0] && (d + [x])[1..] == d[1..] + [x];
    }
  }

  lemma ClearSnoc(items: C.Blacklist, n: nat, flag: C.SeriesId)
    requires n < |items|
    ensures C.ClearFlags(items[..n + 1], flag) + items[n + 1..]
            == C.ClearFlags(items[..n], flag) + [(items[n].0, Cleared(items[n].1, flag))] + items[n + 1..]
    ensures C.ClearFlags(items[..n], flag) + items[n..]
            == C.ClearFlags(items[..n], flag) + [items[n]] + items[n + 1..]
  {
    ClearAppend(items[..n], flag, items[n]);
    assert items[..n + 1] == items[..n] + [items[n]];
    assert items[n..] == [items[n]] + items[n + 1..];
  }

  lemma ClearPlace(items: C.Blacklist, n: nat, flag: C.SeriesId)
    requires Unique(items) && n < |items|
    ensures var done := C.ClearFlags(items[..n], flag);
            forall e :: Put(done + items[n..], items[n].0, e) == done + [(items[n].0, e)] + items[n + 1..]
  {
    var done := C.ClearFlags(items[..n], flag);
    var all := done + items[n..];
    assert all[n] == items[n] && forall i | 0 <= i < n :: all[i].0 == items[i].0;
    assert Index(all, items[n].0) == n;
    forall e
      ensures Put(all, items[n].0, e) == done + [(items[n].0, e)] + items[n + 1..]
    {
      assert Put(all, items[n].0, e) == all[n := (items[n].0, e)];
    }
  }

  /** While the loop is at an item, its key stands right after what is already done. */
  lemma PlaceOf(items: C.Blacklist, n: nat, time: C.Time)
    requires Unique(items) && n < |items|
    ensures var done := C.ProcessDeleted(items[..n], time).0;
            Index(done + items[n..], items[n].0) == |done| && Drop(done + items[n..], |done|) == done + items[n + 1..]
  {
    var done := C.ProcessDeleted(items[..n], time).0;
    C.DeletedUnique(items[..n], time);
    var all := done + items[n..];
    assert all[|done|] == items[n];
    forall i | 0 <= i < |done|
      ensures all[i].0 != items[n].0
    {
      var j :| 0 <= j < n && items[..n][j].0 == done[i].0;
      assert items[j].0 != items[n].0;
    }
  }

  lemma DeletedNext(items: C.Blacklist, n: nat, time: C.Time)
    requires n < |items|
    ensures var (done, ps) := C.ProcessDeleted(items[..n], time);
            var (k, e) := items[n];
            C.ProcessDeleted(items[..n + 1], time)
            == if C.Stays(e, time) then (done + [(k, C.Unflagged(e))], ps) else (done, ps + [C.Removal(e)])
  {
    DeletedSnoc(items[..n], time, items[n]);
    assert items[..n + 1] == items[..n] + [items[n]];
  }

  lemma PutInPlace(done: C.Blacklist, rest: C.Blacklist, e: C.Entry)
    requires rest != [] && Index(done + rest, rest[0].0) == |done|
    ensures Put(done + rest, rest[0].0, e) == done + [(rest[0].0, e)] + rest[1..]
  {
  }

  /** What one item of the loop does to the dictionary as it stands. */
  lemma DeletedStep(items: C.Blacklist, n: nat, time: C.Time)
    requires Unique(items) && n < |items|
    ensures var done := C.ProcessDeleted(items[..n], time).0;
            var (k, e) := items[n];
            var all := done + items[n..];
            && Has(all, k) && Drop(all, Index(all, k)) == done + items[n + 1..]
            && Put(all, k, C.Unflagged(e)) == done + [(k, C.Unflagged(e))] + items[n + 1..]
  {
    PlaceOf(items, n, time);
    assert items[n..][0] == items[n] && items[n..][1..] == items[n + 1..];
    PutInPlace(C.ProcessDeleted(items[..n], time).0, items[n..], C.Unflagged(items[n].1));
  }

  // ---------------------------------------------------------------- the open series

  class ComparatorState {
    var openSeries: map<C.SeriesId, C.Series>

    constructor ()
      ensures openSeries == map[]
    {
      openSeries := map[];
    }

    method IsMessageValid(e: C.Event) returns (valid: bool)
      ensures valid == C.IsMessageValid(C.State(map[], openSeries, map[], 0), e)
    {
      valid := true;
      if e.seriesId in openSeries {
        var s := openSeries[e.seriesId];
        if e.total != s.total || e.no in s.nums || s.count + 1 > s.total {
          valid := false;
        }
      }
    }

    method IsSeriesComplete(sid: C.SeriesId) returns (complete: bool)
      requires sid in openSeries
      ensures complete == C.IsComplete(openSeries[sid])
    {
      complete := openSeries[sid].total == openSeries[sid].count;
    }

    method UpdateSeries(e: C.Event)
      modifies this
      ensures openSeries == old(openSeries)[e.seriesId := C.UpdatedSeries(C.State(map[], old(openSeries), map[], 0), e)]
    {
      if e.seriesId !in openSeries {
        openSeries := openSeries[e.seriesId := C.Series(e.total, 0, [], None)];
      }
      var s := openSeries[e.seriesId];
      openSeries := openSeries[e.seriesId := s.(count := s.count + 1, nums := s.nums + [e.no])];
    }

    method CloseSeries(sid: C.SeriesId)
      requires sid in openSeries
      modifies this
      ensures openSeries == old(openSeries) - {sid}
    {
      openSeries := openSeries - {sid};
    }

    method SaveTimeout(sid: C.SeriesId, t: C.TimerId)
      requires sid in openSeries
      modifies this
      ensures openSeries == old(openSeries)[sid := old(openSeries)[sid].(timer := Some(t))]
    {
      openSeries := openSeries[sid := openSeries[sid].(timer := Some(t))];
    }
  }
}
