/** The archive of full blacklists, kept as chains of differences. */
module BlacklistArchive {
  import opened Options

  type File = string
  type Patch = string
  type Id = string
  type Time = int

  const PERIOD := 14
  const EMPTY: File := ""

  /** The external tools: patching a file with its difference to another one gives the other one. */
  datatype Tools = Tools(diff: (File, File) -> Patch, patch: (File, Patch) -> File) {
    ghost predicate PatchUndoesDiff() {
      forall a, b :: patch(a, diff(a, b)) == b
    }
  }

  /** A stored document; marker 0 begins a chain. */
  datatype Record = Record(id: Id, marker: nat, prevId: Option<Id>, received: Time, data: Patch)

  type Archive = seq<Record>

  // ---------------------------------------------------------------- the queries

  /** The document with marker 0 received last. */
  function LatestInit(a: Archive): Option<Record> {
    if a == [] then None
    else
      var rest := LatestInit(a[1..]);
      if a[0].marker == 0 && (rest.None? || rest.value.received < a[0].received) then Some(a[0]) else rest
  }

  function Insert(r: Record, sorted: seq<Record>): seq<Record> {
    if sorted == [] || r.received <= sorted[0].received then [r] + sorted
    else [sorted[0]] + Insert(r, sorted[1..])
  }

  /** The documents received no earlier than a date, in the order of receiving. */
  function Since(a: Archive, date: Time): seq<Record> {
    if a == [] then []
    else if a[0].received >= date then Insert(a[0], Since(a[1..], date))
    else Since(a[1..], date)
  }

  ghost predicate Ascending(rs: seq<Record>) {
    forall i, j :: 0 <= i < j < |rs| ==> rs[i].received <= rs[j].received
  }

  lemma {:induction false} AscendingCons(r: Record, rest: seq<Record>)
    requires Ascending(rest) && (rest != [] ==> r.received <= rest[0].received)
    ensures Ascending([r] + rest)
  {
    var all := [r] + rest;
    forall i, j | 0 <= i < j < |all|
      ensures all[i].received <= all[j].received
    {
      assert all[j] == rest[j - 1] && (i > 0 ==> all[i] == rest[i - 1]);
      assert rest[0].received <= rest[j - 1].received;
    }
  }

  lemma {:induction false} InsertSorts(r: Record, sorted: seq<Record>)
    requires Ascending(sorted)
    ensures Insert(r, sorted) != [] && Ascending(Insert(r, sorted))
    ensures Insert(r, sorted)[0] == r || (sorted != [] && Insert(r, sorted)[0] == sorted[0])
  {
    if sorted == [] || r.received <= sorted[0].received {
      AscendingCons(r, sorted);
    } else {
      var rest := sorted[1..];
      assert forall i :: 0 <= i < |rest| ==> rest[i] == sorted[i + 1];
      InsertSorts(r, rest);
      AscendingCons(sorted[0], Insert(r, rest));
    }
  }

  lemma {:induction false} InsertCounts(r: Record, sorted: seq<Record>)
    ensures multiset(Insert(r, sorted)) == multiset(sorted) + multiset{r}
  {
    if sorted != [] && r.received > sorted[0].received {
      InsertCounts(r, sorted[1..]);
      assert sorted == [sorted[0]] + sorted[1..];
    }
  }

  /** Whatever the order in which the documents lie in the archive: the second query gives exactly those received
      no earlier than the date, each as often as it is there, in the order of receiving. */
  lemma {:induction false} SinceExactly(a: Archive, date: Time)
    ensures Ascending(Since(a, date))
    ensures forall r :: multiset(Since(a, date))[r] == if r.received >= date then multiset(a)[r] else 0
  {
    if a != [] {
      SinceExactly(a[1..], date);
      assert a == [a[0]] + a[1..];
      if a[0].received >= date {
        InsertSorts(a[0], Since(a[1..], date));
        InsertCounts(a[0], Since(a[1..], date));
      }
    }
  }

  /** And the first one finds a document with marker 0 if there is any, and none of them was received later. */
  lemma {:induction false} LatestInitExactly(a: Archive)
    ensures LatestInit(a).None? <==> forall r | r in a :: r.marker != 0
    ensures LatestInit(a).Some? ==>
              && LatestInit(a).value in a && LatestInit(a).value.marker == 0
              && forall r | r in a && r.marker == 0 :: r.received <= LatestInit(a).value.received
  {
    if a != [] {
      LatestInitExactly(a[1..]);
      assert a == [a[0]] + a[1..];
    }
  }

  /** `get_patches()`: the current chain, if any. */
  function GetPatches(a: Archive): Option<seq<Record>> {
    var first := LatestInit(a);
    if first.None? then None else Some(Since(a, first.value.received))
  }

  // ---------------------------------------------------------------- storing

  /** `generate_orig_file()`: the patches applied one after the other, to an empty file at first. */
  function Rebuilt(t: Tools, chain: seq<Record>): File {
    if chain == [] then EMPTY else t.patch(Rebuilt(t, chain[..|chain| - 1]), chain[|chain| - 1].data)
  }

  /** `start()`: the document stored for a payload. */
  function NewRecord(t: Tools, a: Archive, id: Id, received: Time, payload: File): Record {
    var chain := GetPatches(a);
    if chain.Some? && chain.value != [] && |chain.value| <= PERIOD then
      Record(id, |chain.value|, Some(chain.value[|chain.value| - 1].id), received,
             t.diff(Rebuilt(t, chain.value), payload))
    else Record(id, 0, None, received, t.diff(EMPTY, payload))
  }

  /** One object per message; `init` belongs to the class and outlives it. */
  class BlackListCompacter {
    const tools: Tools
    var archive: Archive
    var init: bool
    var markerDbDiff: nat
    var prevId: Option<Id>

    constructor (tools: Tools)
      ensures this.tools == tools && archive == []
    {
      this.tools, archive, init, markerDbDiff, prevId := tools, [], true, 1, None;
    }

    /** Patches the recovery file with each document of the cursor in turn. */
    method GenerateOrigFile(cursor: seq<Record>) returns (recovery: File)
      modifies `prevId
      ensures recovery == Rebuilt(tools, cursor)
      ensures prevId == if cursor == [] then old(prevId) else Some(cursor[|cursor| - 1].id)
    {
      recovery := EMPTY;
      for n := 0 to |cursor|
        invariant recovery == Rebuilt(tools, cursor[..n])
        invariant prevId == if n == 0 then old(prevId) else Some(cursor[n - 1].id)
      {
        prevId := Some(cursor[n].id);
        recovery := tools.patch(recovery, cursor[n].data);
        assert cursor[..n + 1][..n] == cursor[..n] && cursor[..n + 1][n] == cursor[n];
      }
      assert cursor[..|cursor|] == cursor;
    }

    method SaveDiffInDb(file1: File, file2: File, id: Id, received: Time)
      modifies `archive, `init
      ensures !init
      ensures var marker := if old(init) then 0 else markerDbDiff;
              archive == old(archive) + [Record(id, marker, prevId, received, tools.diff(file1, file2))]
    {
      var marker := if init then 0 else markerDbDiff;
      init := false;
      archive := archive + [Record(id, marker, prevId, received, tools.diff(file1, file2))];
    }

    /** `start()` of the object made for one message. */
    method Start(id: Id, received: Time, payload: File)
      modifies this
      ensures archive == old(archive) + [NewRecord(tools, old(archive), id, received, payload)]
    {
      prevId, markerDbDiff := None, 1;
      var cursor := GetPatches(archive);
      if cursor.Some? {
        markerDbDiff := |cursor.value|;
      } else {
        init, markerDbDiff := true, 0;
      }
      if cursor.Some? && |cursor.value| <= PERIOD {
        NotEmpty(archive);
        init := false;
        var orig := GenerateOrigFile(cursor.value);
        SaveDiffInDb(orig, payload, id, received);
      } else {
        init := true;
        SaveDiffInDb(EMPTY, payload, id, received);
      }
    }
  }

  lemma {:induction false} InsertHas(r: Record, sorted: seq<Record>)
    ensures Insert(r, sorted) != []
  {
  }

  lemma {:induction false} SinceHas(a: Archive, date: Time)
    requires exists i :: 0 <= i < |a| && a[i].received >= date
    ensures Since(a, date) != []
  {
    if a[0].received >= date {
      InsertHas(a[0], Since(a[1..], date));
    } else {
      var i :| 0 <= i < |a| && a[i].received >= date;
      assert a[1..][i - 1].received >= date;
      SinceHas(a[1..], date);
    }
  }

  lemma {:induction false} NotEmpty(a: Archive)
    ensures GetPatches(a).Some? ==> GetPatches(a).value != []
  {
    if GetPatches(a).Some? {
      LatestInitExactly(a);
      SinceHas(a, LatestInit(a).value.received);
    }
  }

  // ---------------------------------------------------------------- the queries on an archive in order

  ghost predicate InOrder(a: Archive) {
    forall i, j | 0 <= i < j < |a| :: a[i].received < a[j].received
  }

  lemma {:induction false} SinceAll(a: Archive, date: Time)
    requires InOrder(a) && forall i | 0 <= i < |a| :: a[i].received >= date
    ensures Since(a, date) == a
  {
    if a != [] {
      SinceAll(a[1..], date);
      if |a| > 1 {
        assert a[0].received < a[1].received;
      }
    }
  }

  lemma {:induction false} SinceSuffix(a: Archive, n: nat)
    requires InOrder(a) && n < |a|
    ensures Since(a, a[n].received) == a[n..]
    decreases n
  {
    if n == 0 {
      assert forall i | 0 < i < |a| :: a[0].received < a[i].received;
      SinceAll(a, a[0].received);
    } else {
      assert a[0].received < a[n].received;
      SinceSuffix(a[1..], n - 1);
      assert a[1..][n - 1..] == a[n..];
    }
  }

  /** Where the last chain begins. */
  lemma {:induction false} LatestInitAt(a: Archive, n: nat)
    requires InOrder(a) && n < |a| && a[n].marker == 0 && forall i | n < i < |a| :: a[i].marker != 0
    ensures LatestInit(a) == Some(a[n])
    decreases |a|
  {
    if n == 0 {
      NoInit(a[1..]);
    } else {
      LatestInitAt(a[1..], n - 1);
      assert a[0].received < a[n].received;
    }
  }

  lemma {:induction false} NoInit(a: Archive)
    requires forall i | 0 <= i < |a| :: a[i].marker != 0
    ensures LatestInit(a).None?
  {
    if a != [] {
      NoInit(a[1..]);
    }
  }

  // ---------------------------------------------------------------- chains

  /** The chain of a document begins as many documents before it as its marker says. */
  function ChainStart(a: Archive, k: nat): int
    requires k < |a|
  {
    k - a[k].marker
  }

  function ChainOf(a: Archive, k: nat): seq<Record>
    requires k < |a| && ChainStart(a, k) >= 0
  {
    a[ChainStart(a, k)..k + 1]
  }

  /** Documents stand in chains of at most `PERIOD + 1`, numbered from 0 and linked by id. */
  ghost predicate WellChained(a: Archive) {
    && InOrder(a)
    && (a != [] ==> a[0].marker == 0)
    && (forall k | 0 <= k < |a| :: a[k].marker <= PERIOD)
    && (forall k | 0 < k < |a| :: a[k].marker == 0 || a[k].marker == a[k - 1].marker + 1)
    && (forall k | 0 <= k < |a| :: a[k].prevId == if a[k].marker == 0 then None else Some(a[k - 1].id))
  }

  /** Every archived payload is what its own chain rebuilds. */
  ghost predicate Recoverable(t: Tools, a: Archive, payloads: seq<File>) {
    && |payloads| == |a|
    && forall k | 0 <= k < |a| :: ChainStart(a, k) >= 0 && Rebuilt(t, ChainOf(a, k)) == payloads[k]
  }

  lemma {:induction false} MarkersCount(a: Archive, k: nat)
    requires WellChained(a) && k < |a|
    ensures ChainStart(a, k) >= 0
    ensures forall j | ChainStart(a, k) <= j <= k :: a[j].marker == j - ChainStart(a, k)
    decreases k
  {
    if a[k].marker > 0 {
      MarkersCount(a, k - 1);
    }
  }

  /** The query gives the chain of the last document. */
  lemma {:induction false} CurrentChain(a: Archive)
    requires WellChained(a) && a != []
    ensures ChainStart(a, |a| - 1) >= 0
    ensures GetPatches(a) == Some(ChainOf(a, |a| - 1)) && |ChainOf(a, |a| - 1)| == a[|a| - 1].marker + 1
  {
    var k := |a| - 1;
    MarkersCount(a, k);
    var n := ChainStart(a, k);
    LatestInitAt(a, n);
    SinceSuffix(a, n);
    assert ChainOf(a, k) == a[n..];
  }

  lemma {:induction false} SameChain(a: Archive, r: Record, k: nat)
    requires k < |a| && ChainStart(a, k) >= 0
    ensures ChainStart(a + [r], k) == ChainStart(a, k) && ChainOf(a + [r], k) == ChainOf(a, k)
  {
    assert (a + [r])[k] == a[k];
  }

  lemma {:induction false} Extended(t: Tools, chain: seq<Record>, r: Record)
    ensures Rebuilt(t, chain + [r]) == t.patch(Rebuilt(t, chain), r.data)
  {
    assert (chain + [r])[..|chain|] == chain;
  }

  /** A document that begins a chain or links to the last one. */
  lemma {:induction false} ChainedBy(a: Archive, r: Record)
    requires WellChained(a) && forall i | 0 <= i < |a| :: a[i].received < r.received
    requires || (r.marker == 0 && r.prevId == None)
             || (&& a != [] && 0 < r.marker <= PERIOD && r.marker == a[|a| - 1].marker + 1
                 && r.prevId == Some(a[|a| - 1].id))
    ensures WellChained(a + [r])
  {
  }

  lemma {:induction false} NewRecordIsChained(t: Tools, a: Archive, id: Id, received: Time, payload: File)
    requires WellChained(a) && forall i | 0 <= i < |a| :: a[i].received < received
    ensures WellChained(a + [NewRecord(t, a, id, received, payload)])
  {
    if a != [] {
      CurrentChain(a);
    }
    ChainedBy(a, NewRecord(t, a, id, received, payload));
  }

  lemma SliceWithLast(a: Archive, n: nat, r: Record)
    requires n <= |a|
    ensures (a + [r])[n..|a| + 1] == a[n..] + [r] && a[n..] == a[n..|a|]
    ensures n == |a| ==> a[n..] == []
  {
  }

  ghost predicate LastRebuilds(t: Tools, a: Archive, payload: File) {
    a != [] && ChainStart(a, |a| - 1) >= 0 && Rebuilt(t, ChainOf(a, |a| - 1)) == payload
  }

  lemma {:induction false} FirstRebuilds(t: Tools, a: Archive, r: Record, payload: File)
    requires t.PatchUndoesDiff() && r.marker == 0 && r.data == t.diff(EMPTY, payload)
    ensures LastRebuilds(t, a + [r], payload)
  {
    SliceWithLast(a, |a|, r);
    assert ChainOf(a + [r], |a|) == [] + [r];
    Extended(t, [], r);
  }

  lemma {:induction false} NextRebuilds(t: Tools, a: Archive, r: Record, payload: File)
    requires t.PatchUndoesDiff() && a != [] && ChainStart(a, |a| - 1) >= 0 && r.marker == a[|a| - 1].marker + 1
    requires r.data == t.diff(Rebuilt(t, ChainOf(a, |a| - 1)), payload)
    ensures LastRebuilds(t, a + [r], payload)
  {
    SliceWithLast(a, |a| - r.marker, r);
    assert ChainOf(a + [r], |a|) == ChainOf(a, |a| - 1) + [r];
    Extended(t, ChainOf(a, |a| - 1), r);
  }

  lemma {:induction false} NewRecordRebuilds(t: Tools, a: Archive, id: Id, received: Time, payload: File)
    requires WellChained(a) && t.PatchUndoesDiff()
    requires forall i | 0 <= i < |a| :: a[i].received < received
    ensures LastRebuilds(t, a + [NewRecord(t, a, id, received, payload)], payload)
  {
    var r := NewRecord(t, a, id, received, payload);
    if a != [] {
      CurrentChain(a);
    }
    if r.marker == 0 {
      FirstRebuilds(t, a, r, payload);
    } else {
      NextRebuilds(t, a, r, payload);
    }
  }

  /** Storing one more payload, received later than all before, keeps every earlier payload recoverable
      and makes the new one recoverable. */
  lemma {:induction false} StoringKeepsRecoverable(
      t: Tools, a: Archive, payloads: seq<File>, id: Id, received: Time, payload: File)
    requires WellChained(a) && Recoverable(t, a, payloads) && t.PatchUndoesDiff()
    requires forall i | 0 <= i < |a| :: a[i].received < received
    ensures var a' := a + [NewRecord(t, a, id, received, payload)];
            WellChained(a') && Recoverable(t, a', payloads + [payload])
  {
    var r := NewRecord(t, a, id, received, payload);
    NewRecordIsChained(t, a, id, received, payload);
    NewRecordRebuilds(t, a, id, received, payload);
    forall k | 0 <= k < |a|
      ensures ChainStart(a + [r], k) >= 0 && Rebuilt(t, ChainOf(a + [r], k)) == payloads[k]
    {
      SameChain(a, r, k);
    }
  }

  // ---------------------------------------------------------------- whole histories

  datatype Message = Message(id: Id, received: Time, payload: File)

  function Stored(t: Tools, a: Archive, ms: seq<Message>): Archive
    decreases |ms|
  {
    if ms == [] then a
    else Stored(t, a + [NewRecord(t, a, ms[0].id, ms[0].received, ms[0].payload)], ms[1..])
  }

  function Payloads(ms: seq<Message>): (r: seq<File>)
    ensures |r| == |ms|
  {
    if ms == [] then [] else [ms[0].payload] + Payloads(ms[1..])
  }

  lemma {:induction false} PayloadsAt(ms: seq<Message>, i: nat)
    requires i < |ms|
    ensures Payloads(ms)[i] == ms[i].payload
  {
    if i > 0 {
      PayloadsAt(ms[1..], i - 1);
    }
  }

  ghost predicate Later(a: Archive, ms: seq<Message>) {
    && (forall i, j | 0 <= i < |a| && 0 <= j < |ms| :: a[i].received < ms[j].received)
    && (forall i, j | 0 <= i < j < |ms| :: ms[i].received < ms[j].received)
  }

  lemma {:induction false} PayloadsNext(before: seq<File>, ms: seq<Message>)
    requires ms != []
    ensures before + Payloads(ms) == before + [ms[0].payload] + Payloads(ms[1..])
  {
    assert Payloads(ms) == [ms[0].payload] + Payloads(ms[1..]);
  }

  lemma {:induction false} LaterStill(a: Archive, ms: seq<Message>, r: Record)
    requires ms != [] && Later(a, ms) && r.received == ms[0].received
    ensures Later(a + [r], ms[1..])
  {
  }

  lemma {:induction false} AllRecoverable(t: Tools, a: Archive, payloads: seq<File>, ms: seq<Message>)
    requires WellChained(a) && Recoverable(t, a, payloads) && t.PatchUndoesDiff() && Later(a, ms)
    ensures WellChained(Stored(t, a, ms)) && Recoverable(t, Stored(t, a, ms), payloads + Payloads(ms))
    decreases |ms|
  {
    if ms == [] {
      assert payloads + Payloads(ms) == payloads;
    } else {
      var m := ms[0];
      StoringKeepsRecoverable(t, a, payloads, m.id, m.received, m.payload);
      LaterStill(a, ms, NewRecord(t, a, m.id, m.received, m.payload));
      AllRecoverable(t, a + [NewRecord(t, a, m.id, m.received, m.payload)], payloads + [m.payload], ms[1..]);
      PayloadsNext(payloads, ms);
    }
  }

  lemma {:induction false} HistoryIsRecoverable(t: Tools, ms: seq<Message>)
    requires t.PatchUndoesDiff() && Later([], ms)
    ensures WellChained(Stored(t, [], ms)) && Recoverable(t, Stored(t, [], ms), Payloads(ms))
  {
    AllRecoverable(t, [], [], ms);
    assert [] + Payloads(ms) == Payloads(ms);
  }

  /** What the current chain of an archive rebuilds. */
  ghost predicate CurrentRebuilds(t: Tools, a: Archive, payload: File) {
    && a != [] && ChainStart(a, |a| - 1) >= 0
    && GetPatches(a) == Some(ChainOf(a, |a| - 1))
    && Rebuilt(t, GetPatches(a).value) == payload
    && |GetPatches(a).value| <= PERIOD + 1
  }

  lemma {:induction false} LastIsRebuilt(t: Tools, a: Archive, payloads: seq<File>)
    requires WellChained(a) && Recoverable(t, a, payloads) && a != []
    ensures CurrentRebuilds(t, a, payloads[|a| - 1])
  {
    CurrentChain(a);
    assert a[|a| - 1].marker <= PERIOD;
  }

  /** For any history of payloads received one after the other: the current chain rebuilds the last of
      them, every one of them can be rebuilt from its own chain, and no chain is longer than
      `PERIOD + 1`. */
  lemma {:induction false} EveryPayloadIsRecoverable(t: Tools, ms: seq<Message>)
    requires t.PatchUndoesDiff() && Later([], ms)
    ensures WellChained(Stored(t, [], ms)) && Recoverable(t, Stored(t, [], ms), Payloads(ms))
    ensures ms != [] ==> CurrentRebuilds(t, Stored(t, [], ms), ms[|ms| - 1].payload)
  {
    HistoryIsRecoverable(t, ms);
    if ms != [] {
      PayloadsAt(ms, |ms| - 1);
      LastIsRebuilt(t, Stored(t, [], ms), Payloads(ms));
    }
  }

  // ---------------------------------------------------------------- what exactly is stored

  /** The `k`-th document of a history: the first of each `PERIOD + 1` holds its payload as a difference to the
      empty file, any other as a difference to the payload before. */
  function Expected(t: Tools, ms: seq<Message>, k: nat): Record
    requires k < |ms|
  {
    var m, place := ms[k], k % (PERIOD + 1);
    if place == 0 then Record(m.id, 0, None, m.received, t.diff(EMPTY, m.payload))
    else Record(m.id, place, Some(ms[k - 1].id), m.received, t.diff(ms[k - 1].payload, m.payload))
  }

  ghost predicate AsExpected(t: Tools, done: seq<Message>, a: Archive) {
    |a| == |done| && forall k :: 0 <= k < |a| ==> a[k] == Expected(t, done, k)
  }

  lemma {:induction false} NextPlace(k: nat)
    ensures (k + 1) % (PERIOD + 1) == if k % (PERIOD + 1) == PERIOD then 0 else k % (PERIOD + 1) + 1
  {
  }

  /** What follows a chain. */
  lemma {:induction false} AfterChain(t: Tools, a: Archive, id: Id, received: Time, payload: File)
    requires WellChained(a) && a != []
    ensures ChainStart(a, |a| - 1) >= 0
    ensures var last := a[|a| - 1];
            NewRecord(t, a, id, received, payload)
            == if last.marker == PERIOD then Record(id, 0, None, received, t.diff(EMPTY, payload))
               else Record(id, last.marker + 1, Some(last.id), received,
                           t.diff(Rebuilt(t, ChainOf(a, |a| - 1)), payload))
  {
    CurrentChain(a);
    var chain := ChainOf(a, |a| - 1);
    assert chain[|chain| - 1] == a[|a| - 1];
  }

  lemma {:induction false} NextAsExpected(t: Tools, done: seq<Message>, a: Archive, m: Message)
    requires AsExpected(t, done, a) && WellChained(a) && Recoverable(t, a, Payloads(done))
    ensures NewRecord(t, a, m.id, m.received, m.payload) == Expected(t, done + [m], |done|)
  {
    if a != [] {
      var k := |a| - 1;
      AfterChain(t, a, m.id, m.received, m.payload);
      PayloadsAt(done, k);
      NextPlace(k);
      assert a[k] == Expected(t, done, k) && (done + [m])[k] == done[k] && (done + [m])[|done|] == m;
      assert Rebuilt(t, ChainOf(a, k)) == done[k].payload;
    }
  }

  lemma {:induction false} StillExpected(t: Tools, done: seq<Message>, a: Archive, m: Message)
    requires AsExpected(t, done, a)
    ensures AsExpected(t, done + [m], a + [Expected(t, done + [m], |done|)])
  {
    forall k | 0 <= k < |done|
      ensures Expected(t, done + [m], k) == Expected(t, done, k)
    {
    }
  }

  lemma {:induction false} PayloadsSnoc(ms: seq<Message>, m: Message)
    ensures Payloads(ms + [m]) == Payloads(ms) + [m.payload]
  {
    forall i | 0 <= i < |ms| + 1
      ensures Payloads(ms + [m])[i] == (Payloads(ms) + [m.payload])[i]
    {
      PayloadsAt(ms + [m], i);
      if i < |ms| {
        PayloadsAt(ms, i);
      }
    }
  }

  lemma {:induction false} AllAsExpected(t: Tools, done: seq<Message>, a: Archive, ms: seq<Message>)
    requires AsExpected(t, done, a) && WellChained(a) && Recoverable(t, a, Payloads(done))
    requires t.PatchUndoesDiff() && Later(a, ms)
    ensures AsExpected(t, done + ms, Stored(t, a, ms))
    decreases |ms|
  {
    if ms == [] {
      assert done + ms == done;
    } else {
      var m := ms[0];
      var r := NewRecord(t, a, m.id, m.received, m.payload);
      NextAsExpected(t, done, a, m);
      StillExpected(t, done, a, m);
      StoringKeepsRecoverable(t, a, Payloads(done), m.id, m.received, m.payload);
      PayloadsSnoc(done, m);
      LaterStill(a, ms, r);
      AllAsExpected(t, done + [m], a + [r], ms[1..]);
      assert done + [m] + ms[1..] == done + ms;
    }
  }

  /** For any history of payloads received one after the other, exactly these documents are stored: a chain
      begins with every `PERIOD + 1`-st payload, and all others are stored as differences to the payload
      before. */
  lemma {:induction false} StoredExactly(t: Tools, ms: seq<Message>, k: nat)
    requires t.PatchUndoesDiff() && Later([], ms) && k < |ms|
    ensures |Stored(t, [], ms)| == |ms| && Stored(t, [], ms)[k] == Expected(t, ms, k)
  {
    AllAsExpected(t, [], [], ms);
    assert [] + ms == ms;
  }
}
