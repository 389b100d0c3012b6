/** The recorder's table mirrors the comparator's blacklists. */
module ComparatorRecorder {
  import opened Options
  import opened OrderedDicts
  import opened Comparison
  import opened ComparisonRuns
  import opened Recording

  ghost predicate HasId(d: Blacklist, id: Id) {
    exists i :: 0 <= i < |d| && d[i].1.id == id
  }

  function ListOf(st: State, source: SourceId): Blacklist {
    SourceOf(st, source).blacklist
  }

  /** The row that shows an entry. */
  function RowOf(e: Entry): Row {
    Row(Active, e.expires, multiset(e.ips))
  }

  ghost predicate RowsShow(t: Table, d: Blacklist) {
    forall i | 0 <= i < |d| :: d[i].1.id in t && t[d[i].1.id] == RowOf(d[i].1)
  }

  ghost predicate DistinctIds(d: Blacklist) {
    forall i, j | 0 <= i < j < |d| :: d[i].1.id != d[j].1.id
  }

  /** No two entries share an id; every entry is an active row with its expiry time and addresses; and no
      other row is active. */
  ghost predicate Mirrors(t: Table, st: State) {
    && (forall s :: Unique(ListOf(st, s)) && DistinctIds(ListOf(st, s)) && RowsShow(t, ListOf(st, s)))
    && (forall s, s', id | HasId(ListOf(st, s), id) && HasId(ListOf(st, s'), id) :: s == s')
    && (forall id | id in t && t[id].status == Active :: Listed(st, id))
  }

  ghost predicate Listed(st: State, id: Id) {
    exists s :: HasId(ListOf(st, s), id)
  }

  /** The same about one source, with the rows of the other sources told apart by their ids. */
  ghost predicate MirrorsSource(t: Table, d: Blacklist, others: set<Id>) {
    && Unique(d) && DistinctIds(d) && RowsShow(t, d)
    && (forall i | 0 <= i < |d| :: d[i].1.id !in others)
    && (forall id | id in t && t[id].status == Active :: id in others || HasId(d, id))
  }

  lemma HasIdAt(d: Blacklist, i: nat)
    requires i < |d|
    ensures HasId(d, d[i].1.id)
  {
  }

  /** What a publication does not concern stays as it is. */
  ghost predicate OthersKept(t: Table, t': Table, others: set<Id>) {
    forall id | id in others :: (id in t <==> id in t') && (id in t ==> t'[id] == t[id])
  }

  /** New and changed entries come with an id never seen before. */
  predicate FreshId(d: Blacklist, k: Key, e: Event, t: Table) {
    var p := Store(d, k, e).1;
    p.Some? && !p.value.Update? ==> e.id !in t
  }

  lemma AddMirrored(t: Table, d: Blacklist, others: set<Id>, k: Key, e: Entry)
    requires MirrorsSource(t, d, others) && others <= t.Keys && !Has(d, k) && e.id !in t
    ensures var t' := t[e.id := RowOf(e)];
            MirrorsSource(t', d + [(k, e)], others) && OthersKept(t, t', others)
  {
    var d' := d + [(k, e)];
    assert d' == Put(d, k, e);
    HasIdAt(d', |d|);
    forall id | HasId(d, id)
      ensures HasId(d', id)
    {
      var j :| 0 <= j < |d| && d[j].1.id == id;
      HasIdAt(d', j);
    }
  }

  lemma UpdateMirrored(t: Table, d: Blacklist, others: set<Id>, i: nat, e: Entry)
    requires MirrorsSource(t, d, others) && others <= t.Keys && i < |d| && e.id == d[i].1.id
    ensures var t' := t[e.id := RowOf(e)];
            MirrorsSource(t', d[i := (d[i].0, e)], others) && OthersKept(t, t', others)
  {
    var d' := d[i := (d[i].0, e)];
    HasIdAt(d', i);
    forall id | HasId(d, id)
      ensures id == d[i].1.id || HasId(d', id)
    {
      var j :| 0 <= j < |d| && d[j].1.id == id;
      HasIdAt(d', j);
    }
  }

  lemma ChangeMirrored(t: Table, d: Blacklist, others: set<Id>, i: nat, e: Entry)
    requires MirrorsSource(t, d, others) && others <= t.Keys && i < |d| && e.id !in t
    ensures var t' := WithStatus(t, d[i].1.id, Replaced)[e.id := RowOf(e)];
            MirrorsSource(t', d[i := (d[i].0, e)], others) && OthersKept(t, t', others)
  {
    var d' := d[i := (d[i].0, e)];
    HasIdAt(d', i);
    forall id | HasId(d, id)
      ensures id == d[i].1.id || HasId(d', id)
    {
      var j :| 0 <= j < |d| && d[j].1.id == id;
      HasIdAt(d', j);
    }
  }

  /** Replaying what a stored message publishes keeps the mirror. */
  lemma StoreMirrored(t: Table, d: Blacklist, others: set<Id>, k: Key, e: Event)
    requires MirrorsSource(t, d, others) && FreshId(d, k, e, t) && others <= t.Keys
    ensures var (d', p) := Store(d, k, e);
            var t' := Replay(t, OptionToSeq(p));
            MirrorsSource(t', d', others) && OthersKept(t, t', others)
  {
    var (d', p) := Store(d, k, e);
    var i := Index(d, k);
    if p.Some? {
      assert Replay(t, [p.value]) == Handle(t, p.value);
    }
    if !Has(d, k) {
      AddMirrored(t, d, others, k, Fresh(e));
    } else if AreIpsDifferent(d[i].1.ips, IpsOf(e)) {
      ChangeMirrored(t, d, others, i, Fresh(e));
    } else {
      var entry := Get(d', k);
      UpdateMirrored(t, d, others, i, entry);
      assert d' == d[i := (d[i].0, entry)];
      assert p.None? ==> t == t[entry.id := RowOf(entry)];
    }
  }

  lemma ConsMirrored(t: Table, k: Key, e: Entry, rest: Blacklist, others: set<Id>)
    requires MirrorsSource(t, rest, others + {e.id}) && Unique([(k, e)] + rest)
    requires e.id !in others && e.id in t && t[e.id] == RowOf(e)
    ensures MirrorsSource(t, [(k, e)] + rest, others)
  {
    var d := [(k, e)] + rest;
    assert d[0] == (k, e);
    forall i | 0 <= i < |rest|
      ensures d[i + 1] == rest[i] && rest[i].1.id != e.id
    {
      assert rest[i].1.id !in others + {e.id};
    }
    forall i | 0 < i < |d|
      ensures d[i] == rest[i - 1]
    {
    }
    HasIdAt(d, 0);
    forall id | HasId(rest, id)
      ensures HasId(d, id)
    {
      var i :| 0 <= i < |rest| && rest[i].1.id == id;
      HasIdAt(d, i + 1);
    }
  }

  lemma TailMirrored(t: Table, d: Blacklist, others: set<Id>)
    requires d != [] && MirrorsSource(t, d, others) && others <= t.Keys
    ensures MirrorsSource(t, d[1..], others + {d[0].1.id}) && others + {d[0].1.id} <= t.Keys
  {
    var id0 := d[0].1.id;
    forall id | id in t && t[id].status == Active
      ensures id in others + {id0} || HasId(d[1..], id)
    {
      if id != id0 && id !in others {
        var i :| 0 <= i < |d| && d[i].1.id == id;
        HasIdAt(d[1..], i - 1);
      }
    }
  }

  /** A removed entry's row ceases to be active; then the id is one of the others. */
  lemma RemovalMirrored(t: Table, d: Blacklist, others: set<Id>)
    requires d != [] && MirrorsSource(t, d, others) && others <= t.Keys
    ensures var t' := Handle(t, Removal(d[0].1));
            && MirrorsSource(t', d[1..], others) && OthersKept(t, t', others) && t'.Keys == t.Keys
            && t'[d[0].1.id].status == if d[0].1.flag.None? then Delisted else Expired
  {
    var id0 := d[0].1.id;
    var t' := Handle(t, Removal(d[0].1));
    forall id | id in t' && t'[id].status == Active
      ensures id in others || HasId(d[1..], id)
    {
      if id !in others {
        var i :| 0 <= i < |d| && d[i].1.id == id;
        HasIdAt(d[1..], i - 1);
      }
    }
  }

  /** Other ids may be told apart more finely. */
  lemma MoreOthers(t: Table, d: Blacklist, others: set<Id>, id: Id)
    requires MirrorsSource(t, d, others) && forall i | 0 <= i < |d| :: d[i].1.id != id
    ensures MirrorsSource(t, d, others + {id})
  {
  }

  /** Replaying what a finalization publishes keeps the mirror, and tells delisted from expired. */
  lemma {:induction false} DeletedMirrored(t: Table, d: Blacklist, others: set<Id>, time: Time)
    requires MirrorsSource(t, d, others) && others <= t.Keys
    ensures var (d', ps) := ProcessDeleted(d, time);
            var t' := Replay(t, ps);
            && MirrorsSource(t', d', others) && OthersKept(t, t', others)
            && forall i | 0 <= i < |d| && !Stays(d[i].1, time) ::
                 d[i].1.id in t' && t'[d[i].1.id].status == if d[i].1.flag.None? then Delisted else Expired
    decreases |d|
  {
    if d != [] {
      var (k, e) := d[0];
      var others' := others + {e.id};
      var (rest, ps) := ProcessDeleted(d[1..], time);
      DeletedUnique(d, time);
      if Stays(e, time) {
        TailMirrored(t, d, others);
        DeletedMirrored(t, d[1..], others', time);
        ConsMirrored(Replay(t, ps), k, Unflagged(e), rest, others);
      } else {
        var t1 := Handle(t, Removal(e));
        RemovalMirrored(t, d, others);
        MoreOthers(t1, d[1..], others, e.id);
        DeletedMirrored(t1, d[1..], others', time);
        assert Replay(t, [Removal(e)] + ps) == Replay(t1, ps);
        FewerOthers(Replay(t1, ps), rest, others, e.id);
      }
    }
  }

  lemma FewerOthers(t: Table, d: Blacklist, others: set<Id>, id: Id)
    requires MirrorsSource(t, d, others + {id}) && (id in t ==> t[id].status != Active)
    ensures MirrorsSource(t, d, others)
  {
  }

  // ---------------------------------------------------------------- all sources

  ghost function OtherIds(st: State, source: SourceId): set<Id> {
    set s, i | s in st.sources && s != source && 0 <= i < |st.sources[s].blacklist| :: st.sources[s].blacklist[i].1.id
  }

  lemma OtherIdsAre(st: State, source: SourceId, id: Id)
    ensures id in OtherIds(st, source) <==> exists s :: s != source && HasId(ListOf(st, s), id)
  {
    if s :| s != source && HasId(ListOf(st, s), id) {
      var i :| 0 <= i < |ListOf(st, s)| && ListOf(st, s)[i].1.id == id;
      assert s in st.sources && st.sources[s].blacklist[i].1.id == id;
    }
    if id in OtherIds(st, source) {
      var s, i :| s in st.sources && s != source && 0 <= i < |st.sources[s].blacklist|
                  && st.sources[s].blacklist[i].1.id == id;
      HasIdAt(ListOf(st, s), i);
    }
  }

  lemma MirrorOfSource(t: Table, st: State, source: SourceId)
    requires Mirrors(t, st)
    ensures MirrorsSource(t, ListOf(st, source), OtherIds(st, source)) && OtherIds(st, source) <= t.Keys
  {
    var d := ListOf(st, source);
    forall i | 0 <= i < |d|
      ensures d[i].1.id !in OtherIds(st, source)
    {
      OtherIdsAre(st, source, d[i].1.id);
      HasIdAt(d, i);
    }
    forall id | id in t && t[id].status == Active
      ensures id in OtherIds(st, source) || HasId(d, id)
    {
      OtherIdsAre(st, source, id);
      assert Listed(st, id);
    }
    forall id | id in OtherIds(st, source)
      ensures id in t
    {
      OtherIdsAre(st, source, id);
      var s :| s != source && HasId(ListOf(st, s), id);
      assert RowsShow(t, ListOf(st, s));
    }
  }

  /** When one source changes and its own mirror holds, so does the whole. */
  lemma MirrorOfAll(t: Table, st: State, t': Table, st': State, source: SourceId)
    requires Mirrors(t, st) && forall s | s != source :: SourceOf(st', s) == SourceOf(st, s)
    requires MirrorsSource(t', ListOf(st', source), OtherIds(st, source)) && OthersKept(t, t', OtherIds(st, source))
    ensures Mirrors(t', st')
  {
    forall s
      ensures Unique(ListOf(st', s)) && DistinctIds(ListOf(st', s)) && RowsShow(t', ListOf(st', s))
    {
      if s != source {
        OtherRowsShow(t, st, t', source, s);
      }
    }
    forall s, s', id | HasId(ListOf(st', s), id) && HasId(ListOf(st', s'), id)
      ensures s == s'
    {
      OtherIdsAre(st, source, id);
      assert s != source ==> ListOf(st', s) == ListOf(st, s);
      assert s' != source ==> ListOf(st', s') == ListOf(st, s');
      assert HasId(ListOf(st', source), id) ==> id !in OtherIds(st, source);
    }
    forall id | id in t' && t'[id].status == Active
      ensures Listed(st', id)
    {
      OtherIdsAre(st, source, id);
      if id in OtherIds(st, source) {
        var s :| s != source && HasId(ListOf(st, s), id);
        assert HasId(ListOf(st', s), id);
      } else {
        assert HasId(ListOf(st', source), id);
      }
    }
  }

  lemma OtherRowsShow(t: Table, st: State, t': Table, source: SourceId, s: SourceId)
    requires s != source && RowsShow(t, ListOf(st, s)) && OthersKept(t, t', OtherIds(st, source))
    ensures RowsShow(t', ListOf(st, s))
  {
    var d := ListOf(st, s);
    forall i | 0 <= i < |d|
      ensures d[i].1.id in t' && t'[d[i].1.id] == RowOf(d[i].1)
    {
      HasIdAt(d, i);
      OtherIdsAre(st, source, d[i].1.id);
    }
  }

  /** A new or changed entry gets an id the table does not know. */
  predicate FreshInput(t: Table, st: State, i: Input) {
    i.Message? && IsMessageValid(st, i.e) && EventKey(i.e).Some? ==>
      FreshId(ListOf(st, i.e.source), EventKey(i.e).value, i.e, t)
  }

  function PublishedBy(st: State, i: Input): seq<Published> {
    if i.Message? then ProcessInput(st, i.e).1 else []
  }

  /** The source's own mirror after a message, finalization included; ids that are told apart keep their
      rows. */
  lemma OwnMirror(t: Table, st: State, e: Event, others: set<Id>)
    requires MirrorsSource(t, ListOf(st, e.source), others) && others <= t.Keys
    requires FreshInput(t, st, Message(e)) && IsMessageValid(st, e)
    ensures var t' := Replay(t, ProcessInput(st, e).1);
            MirrorsSource(t', ListOf(ProcessInput(st, e).0, e.source), others) && OthersKept(t, t', others)
  {
    OwnSource(st, e);
    var (s, r) := ProcessEvent(SourceOf(st, e.source), e);
    if r.Ok? {
      var t1 := Replay(t, OptionToSeq(r.value));
      StoreMirrored(t, ListOf(st, e.source), others, EventKey(e).value, e);
      if Completes(st, e) {
        var ps := ProcessDeleted(s.blacklist, s.time.value).1;
        DeletedMirrored(t1, s.blacklist, others, s.time.value);
        ReplayAppend(t, OptionToSeq(r.value), ps);
        assert ProcessInput(st, e).1 == OptionToSeq(r.value) + ps;
      }
    }
  }

  lemma {:induction false} ClearedMirrored(t: Table, d: Blacklist, flag: SeriesId)
    ensures forall i | 0 <= i < |d| :: ClearFlags(d, flag)[i].1.id == d[i].1.id
                                       && RowOf(ClearFlags(d, flag)[i].1) == RowOf(d[i].1)
  {
    if d != [] {
      ClearedMirrored(t, d[1..], flag);
      assert forall i | 0 < i < |d| :: ClearFlags(d, flag)[i] == ClearFlags(d[1..], flag)[i - 1];
    }
  }

  lemma ClearedSourceMirrored(t: Table, d: Blacklist, others: set<Id>, flag: SeriesId)
    requires MirrorsSource(t, d, others)
    ensures MirrorsSource(t, ClearFlags(d, flag), others)
  {
    var d' := ClearFlags(d, flag);
    ClearedMirrored(t, d, flag);
    forall id | HasId(d, id)
      ensures HasId(d', id)
    {
      var i :| 0 <= i < |d| && d[i].1.id == id;
      HasIdAt(d', i);
    }
  }

  /** Replaying what one step publishes keeps the table equal to the blacklists: after a message of any
      kind, after the finalization it may bring, and after a timeout. */
  lemma StepMirrored(t: Table, st: State, i: Input)
    requires Mirrors(t, st) && Enabled(st, i) && FreshInput(t, st, i)
    ensures Mirrors(Replay(t, PublishedBy(st, i)), Step(st, i))
  {
    match i
    case Message(e) =>
      if IsMessageValid(st, e) {
        MirrorOfSource(t, st, e.source);
        OwnMirror(t, st, e, OtherIds(st, e.source));
        forall s | s != e.source
          ensures SourceOf(Step(st, i), s) == SourceOf(st, s)
        {
          OtherSources(st, e, s);
        }
        MirrorOfAll(t, st, Replay(t, PublishedBy(st, i)), Step(st, i), e.source);
      }
    case TimerFires(timer) =>
      var (source, sid) := st.timers[timer];
      MirrorOfSource(t, st, source);
      ClearedSourceMirrored(t, ListOf(st, source), OtherIds(st, source), sid);
      MirrorOfAll(t, st, t, Step(st, i), source);
  }

  ghost predicate FreshRun(t: Table, st: State, inputs: seq<Input>)
    decreases |inputs|
  {
    inputs == []
    || (&& Enabled(st, inputs[0]) && FreshInput(t, st, inputs[0])
        && FreshRun(Replay(t, PublishedBy(st, inputs[0])), Step(st, inputs[0]), inputs[1..]))
  }

  function RunBoth(t: Table, st: State, inputs: seq<Input>): (Table, State)
    requires FreshRun(t, st, inputs)
    decreases |inputs|
  {
    if inputs == [] then (t, st)
    else RunBoth(Replay(t, PublishedBy(st, inputs[0])), Step(st, inputs[0]), inputs[1..])
  }

  lemma {:induction false} RunMirrored(t: Table, st: State, inputs: seq<Input>)
    requires Mirrors(t, st) && FreshRun(t, st, inputs)
    ensures Mirrors(RunBoth(t, st, inputs).0, RunBoth(t, st, inputs).1)
    decreases |inputs|
  {
    if inputs != [] {
      StepMirrored(t, st, inputs[0]);
      RunMirrored(Replay(t, PublishedBy(st, inputs[0])), Step(st, inputs[0]), inputs[1..]);
    }
  }

  /** From the empty start, after any run with fresh ids - series in any order, overlapping, failing or
      timing out - the active ids, their expiry times and their addresses are exactly those on the
      blacklists. */
  lemma TableEqualsBlacklists(inputs: seq<Input>, id: Id, expires: Time, ips: multiset<Ip>)
    requires FreshRun(map[], INITIAL, inputs)
    ensures var (t, st) := RunBoth(map[], INITIAL, inputs);
            (id in t && t[id] == Row(Active, expires, ips))
            <==> exists s, i :: 0 <= i < |ListOf(st, s)|
                                && ListOf(st, s)[i].1.id == id && ListOf(st, s)[i].1.expires == expires
                                && multiset(ListOf(st, s)[i].1.ips) == ips
  {
    assert Mirrors(map[], INITIAL);
    RunMirrored(map[], INITIAL, inputs);
    var (t, st) := RunBoth(map[], INITIAL, inputs);
    if id in t && t[id] == Row(Active, expires, ips) {
      assert Listed(st, id);
      var s :| HasId(ListOf(st, s), id);
      assert RowsShow(t, ListOf(st, s));
    }
    if s, i :| 0 <= i < |ListOf(st, s)| && ListOf(st, s)[i].1.id == id
               && RowOf(ListOf(st, s)[i].1) == Row(Active, expires, ips) {
      assert RowsShow(t, ListOf(st, s));
    }
  }

  // ---------------------------------------------------------------- rows that are no longer active

  lemma InactiveIsTold(t: Table, d: Blacklist, others: set<Id>, id: Id)
    requires MirrorsSource(t, d, others) && others <= t.Keys && id in t && t[id].status != Active
    ensures MirrorsSource(t, d, others + {id}) && others + {id} <= t.Keys
  {
    MoreOthers(t, d, others, id);
  }

  /** A row that is no longer active is never touched again. */
  lemma StepKeepsInactive(t: Table, st: State, i: Input, id: Id)
    requires Mirrors(t, st) && Enabled(st, i) && FreshInput(t, st, i)
    requires id in t && t[id].status != Active
    ensures var t' := Replay(t, PublishedBy(st, i)); id in t' && t'[id] == t[id]
  {
    if i.Message? && IsMessageValid(st, i.e) {
      var others := OtherIds(st, i.e.source);
      MirrorOfSource(t, st, i.e.source);
      InactiveIsTold(t, ListOf(st, i.e.source), others, id);
      OwnMirror(t, st, i.e, others + {id});
    }
  }

  lemma {:induction false} InactiveStaysAsItIs(t: Table, st: State, inputs: seq<Input>, id: Id)
    requires Mirrors(t, st) && FreshRun(t, st, inputs) && id in t && t[id].status != Active
    ensures var t' := RunBoth(t, st, inputs).0; id in t' && t'[id] == t[id]
    decreases |inputs|
  {
    if inputs != [] {
      StepMirrored(t, st, inputs[0]);
      StepKeepsInactive(t, st, inputs[0], id);
      InactiveStaysAsItIs(Replay(t, PublishedBy(st, inputs[0])), Step(st, inputs[0]), inputs[1..], id);
    }
  }

  /** Does the message bring other addresses for a key on the blacklist? */
  predicate BringsOtherAddresses(st: State, e: Event) {
    && IsMessageValid(st, e) && ProcessEvent(SourceOf(st, e.source), e).1.Ok?
    && Has(ListOf(st, e.source), EventKey(e).value)
    && multiset(Get(ListOf(st, e.source), EventKey(e).value).ips) != multiset(IpsOf(e))
  }

  /** When a message brings other addresses for a key on the blacklist, the row of the former entry ends as
      replaced, with the addresses it had. */
  lemma ChangeReplaces(t: Table, st: State, e: Event)
    requires Mirrors(t, st) && FreshInput(t, st, Message(e)) && BringsOtherAddresses(st, e)
    ensures var former := Get(ListOf(st, e.source), EventKey(e).value);
            var t' := Replay(t, PublishedBy(st, Message(e)));
            former.id in t' && t'[former.id] == RowOf(former).(status := Replaced)
  {
    var d, k, others := ListOf(st, e.source), EventKey(e).value, OtherIds(st, e.source);
    var former := Get(d, k);
    var (s, r) := ProcessEvent(SourceOf(st, e.source), e);
    MirrorOfSource(t, st, e.source);
    StoreMirrored(t, d, others, k, e);
    var t1 := Replay(t, OptionToSeq(r.value));
    assert t1 == Handle(t, r.value.value);
    assert t[former.id] == RowOf(former);
    assert t1[former.id] == RowOf(former).(status := Replaced);
    OwnSource(st, e);
    if Completes(st, e) {
      var ps := ProcessDeleted(s.blacklist, s.time.value).1;
      InactiveIsTold(t1, s.blacklist, others, former.id);
      DeletedMirrored(t1, s.blacklist, others + {former.id}, s.time.value);
      ReplayAppend(t, OptionToSeq(r.value), ps);
      assert ProcessInput(st, e).1 == OptionToSeq(r.value) + ps;
    }
  }

  /** So over any run: once other addresses have come for a key, the former id's row is replaced for good, with
      the addresses it always had. */
  lemma {:induction false} ReplacedForGood(t: Table, st: State, e: Event, inputs: seq<Input>)
    requires Mirrors(t, st) && BringsOtherAddresses(st, e) && FreshRun(t, st, [Message(e)] + inputs)
    ensures var former := Get(ListOf(st, e.source), EventKey(e).value);
            var t' := RunBoth(t, st, [Message(e)] + inputs).0;
            former.id in t' && t'[former.id] == RowOf(former).(status := Replaced)
  {
    assert ([Message(e)] + inputs)[1..] == inputs;
    ChangeReplaces(t, st, e);
    StepMirrored(t, st, Message(e));
    InactiveStaysAsItIs(Replay(t, PublishedBy(st, Message(e))), Step(st, Message(e)), inputs,
                        Get(ListOf(st, e.source), EventKey(e).value).id);
  }
}
