/** The object that connects the comparator's parts, for the messages of one source. */
module ComparatorProcess {
  import opened Options
  import opened OrderedDicts
  import opened ComparatorObjects
  import C = Comparison

  type Timers = map<C.TimerId, (C.SourceId, C.SeriesId)>

  /** The state as a value, of one source. */
  function StateOf(id: C.SourceId, s: C.Source, openSeries: map<C.SeriesId, C.Series>,
      timers: Timers, nextTimer: C.TimerId): C.State
  {
    C.State(map[id := s], openSeries, timers, nextTimer)
  }

  /** What a message does to the value, by the fate of the message. */
  lemma InvalidMessage(id: C.SourceId, s: C.Source, openSeries: map<C.SeriesId, C.Series>,
      timers: Timers, nextTimer: C.TimerId, e: C.Event)
    requires !C.IsMessageValid(C.State(map[], openSeries, map[], 0), e)
    ensures var st := StateOf(id, s, openSeries, timers, nextTimer);
            C.ProcessInput(st, e) == (st, [], Some(C.InvalidForSeries))
  {
  }

  lemma ValidMessage(s: C.Source, openSeries: map<C.SeriesId, C.Series>,
      timers: Timers, nextTimer: C.TimerId, e: C.Event)
    requires C.IsMessageValid(C.State(map[], openSeries, map[], 0), e)
    ensures var st := StateOf(e.source, s, openSeries, timers, nextTimer);
            var u := C.Counted(st, e);
            var (s', r) := C.ProcessEvent(s, e);
            var st2 := StateOf(e.source, s', u.openSeries, u.timers, u.nextTimer);
            C.ProcessInput(st, e)
            == if r.Err? then (st2, [], Some(C.Failed(r.error)))
               else if !C.IsComplete(u.openSeries[e.seriesId]) then (st2, C.OptionToSeq(r.value), None)
               else
                 var (st3, ps) := C.Finalize(st2, e.seriesId, e.source);
                 (st3, C.OptionToSeq(r.value) + ps, None)
  {
    var st := StateOf(e.source, s, openSeries, timers, nextTimer);
    var s' := C.ProcessEvent(s, e).0;
    assert C.SourceOf(st, e.source) == s;
    assert st.sources[e.source := s'] == map[e.source := s'];
  }

  lemma FinalizedMessage(id: C.SourceId, s: C.Source, openSeries: map<C.SeriesId, C.Series>,
      timers: Timers, nextTimer: C.TimerId, sid: C.SeriesId)
    requires sid in openSeries && s.time.Some?
    ensures var (d, ps) := C.ProcessDeleted(s.blacklist, s.time.value);
            C.Finalize(StateOf(id, s, openSeries, timers, nextTimer), sid, id)
            == (StateOf(id, s.(blacklist := d), openSeries - {sid},
                        C.WithoutTimer(timers, openSeries[sid].timer), nextTimer), ps)
  {
    var d := C.ProcessDeleted(s.blacklist, s.time.value).0;
    assert map[id := s][id := s.(blacklist := d)] == map[id := s.(blacklist := d)];
  }

  class Comparator {
    const state: ComparatorState
    var timers: Timers
    var nextTimer: C.TimerId

    constructor (state: ComparatorState)
      ensures this.state == state && timers == map[] && nextTimer == 0
    {
      this.state, timers, nextTimer := state, map[], 0;
    }

    function Model(id: C.SourceId, source: SourceData): C.State
      reads this, state, source
    {
      StateOf(id, source.Model(), state.openSeries, timers, nextTimer)
    }

    method RemoveTimeout(sid: C.SeriesId)
      requires sid in state.openSeries
      modifies this`timers
      ensures timers == C.WithoutTimer(old(timers), state.openSeries[sid].timer)
    {
      var t := state.openSeries[sid].timer;
      if t.Some? {
        timers := timers - {t.value};
      }
    }

    method SetTimeout(source: C.SourceId, sid: C.SeriesId)
      requires sid in state.openSeries
      modifies this, state
      ensures var s := old(state.openSeries)[sid];
              && state.openSeries == old(state.openSeries)[sid := s.(timer := Some(old(nextTimer)))]
              && timers == C.WithoutTimer(old(timers), s.timer)[old(nextTimer) := (source, sid)]
      ensures nextTimer == old(nextTimer) + 1
    {
      RemoveTimeout(sid);
      timers := timers[nextTimer := (source, sid)];
      state.SaveTimeout(sid, nextTimer);
      nextTimer := nextTimer + 1;
    }

    /** `update_series()` and `set_timeout()` */
    method Count(e: C.Event)
      modifies this, state
      ensures var u := C.Counted(C.State(map[], old(state.openSeries), old(timers), old(nextTimer)), e);
              state.openSeries == u.openSeries && timers == u.timers && nextTimer == u.nextTimer
    {
      ghost var before := state.openSeries;
      state.UpdateSeries(e);
      SetTimeout(e.source, e.seriesId);
      ghost var s := C.UpdatedSeries(C.State(map[], before, map[], 0), e);
      assert state.openSeries == before[e.seriesId := s.(timer := Some(old(nextTimer)))];
    }

    method FinalizeSeries(sid: C.SeriesId, source: SourceData) returns (ps: seq<C.Published>)
      requires sid in state.openSeries && source.time.Some? && Unique(source.blacklist)
      modifies this`timers, state, source`blacklist
      ensures (source.blacklist, ps) == C.ProcessDeleted(old(source.blacklist), source.time.value)
      ensures state.openSeries == old(state.openSeries) - {sid}
      ensures timers == C.WithoutTimer(old(timers), old(state.openSeries)[sid].timer)
    {
      RemoveTimeout(sid);
      ps := source.ProcessDeleted();
      state.CloseSeries(sid);
    }

    /** `_process_input()`, with what it publishes and the error it raises. */
    method ProcessInput(e: C.Event, source: SourceData)
      returns (ps: seq<C.Published>, err: Option<C.MessageError>)
      requires Unique(source.blacklist)
      modifies this, state, source
      ensures (Model(e.source, source), ps, err) == C.ProcessInput(old(Model(e.source, source)), e)
    {
      ghost var s, openSeries, timers0, next := source.Model(), state.openSeries, timers, nextTimer;
      var valid := state.IsMessageValid(e);
      if !valid {
        InvalidMessage(e.source, s, openSeries, timers0, next, e);
        return [], Some(C.InvalidForSeries);
      }
      ValidMessage(s, openSeries, timers0, next, e);
      Count(e);
      var r := source.ProcessNewMessage(e);
      if r.Err? {
        return [], Some(C.Failed(r.error));
      }
      ps, err := C.OptionToSeq(r.value), None;
      var complete := state.IsSeriesComplete(e.seriesId);
      if complete {
        FinalizedMessage(e.source, source.Model(), state.openSeries, timers, nextTimer, e.seriesId);
        var removed := FinalizeSeries(e.seriesId, source);
        ps := ps + removed;
      }
    }

    /** `on_series_timeout()` of a timer that goes off, and is pending no more. */
    method OnSeriesTimeout(t: C.TimerId, source: SourceData)
      requires t in timers && timers[t].1 in state.openSeries && Unique(source.blacklist)
      modifies this`timers, state, source`blacklist
      ensures Model(old(timers)[t].0, source) == C.OnTimeout(old(Model(timers[t].0, source)), t)
    {
      var (id, sid) := timers[t];
      ghost var s := source.Model();
      source.ClearFlags(sid);
      state.CloseSeries(sid);
      timers := timers - {t};
      assert map[id := s][id := source.Model()] == map[id := source.Model()];
    }
  }
}
