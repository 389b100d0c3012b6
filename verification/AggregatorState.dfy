/** The two files of the aggregator's state, over whole lives of processes: a pickled list of payload
    handles with the events that use them, and the payload storage file.

    Payloads go to the storage file at once, the pickled state is written only at an orderly stop,
    and every start compacts the storage and rewrites both files, one after the other.
 */
module AggregatorState {
  import opened Options
  import opened PayloadStorage
  import opened PayloadLayouts

  /** The handle list, with a flag for the handles some event still uses. */
  datatype Snapshot = Snapshot(slots: seq<Slot>, live: seq<bool>)

  /** The aggregator data file, the payload storage file, and the state of the process, if one runs. */
  datatype World = World(data: Option<Snapshot>, storage: seq<Byte>, mem: Option<Snapshot>)

  /** How a call ends. */
  datatype Exit = Fine | PlainException | IntegrityException

  // ---------------------------------------------------------------- the usual operations

  /** `PayloadHandle.from_payload()` */
  function Save(w: World, payload: seq<Byte>): World
    requires w.mem.Some?
  {
    var m := w.mem.value;
    w.(storage := w.storage + payload,
       mem := Some(Snapshot(m.slots + [Slot(|w.storage|, |payload|)], m.live + [true])))
  }

  /** An event is no longer kept, so its handle is dead. */
  function Finish(w: World, i: nat): World
    requires w.mem.Some? && i < |w.mem.value.live|
  {
    w.(mem := Some(w.mem.value.(live := w.mem.value.live[i := false])))
  }

  /** `store_state()`, then the process ends; with a failure the data file stays as it was. */
  function StoreState(w: World, fails: bool): World
    requires w.mem.Some?
  {
    if fails then Crash(w) else w.(data := w.mem, mem := None)
  }

  /** The process ends without storing its state. */
  function Crash(w: World): World {
    w.(mem := None)
  }

  /** `restore_state()` */
  function Restore(w: World): World {
    match w.data
    case None => w.(storage := [], mem := Some(Snapshot([], [])))
    case Some(d) => w.(mem := Some(d))
  }

  // ---------------------------------------------------------------- maintain_state(), step by step

  /** What is to be done next; the comments give the lines. */
  datatype Place =
    | OpensStorageWriter   // 780
    | OpensDataWriter      // 781
    | Shrinks              // 782
    | Pickles              // 783
    | IgnoresSigint        // 785
    | RenamesData          // the end of the inner `with` block
    | RaisesFlag           // 786
    | RenamesStorage       // the end of the outer `with` block
    | LowersFlag           // 787
    | RestoresSigint       // 788
    | Logs                 // 818, in the `else` block
    | Reopens              // 823
    | Leaves               // 825, in the `finally` block
    | Returned

  /** The files, the temporary files of the two writers, the flag, and the state in memory. */
  datatype Rewriting = Rewriting(
    at: Place,
    data: Option<Snapshot>,
    storage: seq<Byte>,
    newData: Snapshot,
    newStorage: seq<Byte>,
    flag: bool,
    mem: Snapshot)

  function Order(p: Place): nat {
    match p
    case OpensStorageWriter => 0
    case OpensDataWriter => 1
    case Shrinks => 2
    case Pickles => 3
    case IgnoresSigint => 4
    case RenamesData => 5
    case RaisesFlag => 6
    case RenamesStorage => 7
    case LowersFlag => 8
    case RestoresSigint => 9
    case Logs => 10
    case Reopens => 11
    case Leaves => 12
    case Returned => 13
  }

  ghost predicate LegalSnapshot(sn: Snapshot) {
    |sn.live| == |sn.slots|
  }

  /** The compacted state, all of it live. */
  ghost function Packed(sn: Snapshot): (r: Snapshot)
    requires LegalSnapshot(sn)
    ensures LegalSnapshot(r)
  {
    var kept := Pick(sn.slots, sn.live);
    Snapshot(Pack(kept, 0), seq(|kept|, _ => true))
  }

  ghost function Gathered(file: seq<Byte>, sn: Snapshot): seq<Byte>
    requires LegalSnapshot(sn)
  {
    Gather(file, Pick(sn.slots, sn.live))
  }

  ghost predicate Shrinkable(file: seq<Byte>, sn: Snapshot)
    requires LegalSnapshot(sn)
  {
    Copyable(file, Pick(sn.slots, sn.live), 0)
  }

  /** One step; `None` is the integrity error of `shrink_disk_space()`. */
  ghost function Advance(r: Rewriting): (r': Option<Rewriting>)
    requires LegalSnapshot(r.mem) && r.at != Returned
    ensures r'.Some? ==> LegalSnapshot(r'.value.mem) && Order(r'.value.at) == Order(r.at) + 1
  {
    match r.at
    case OpensStorageWriter => Some(r.(at := OpensDataWriter, newStorage := []))
    case OpensDataWriter => Some(r.(at := Shrinks, newData := Snapshot([], [])))
    case Shrinks =>
      if Shrinkable(r.storage, r.mem) then
        Some(r.(at := Pickles, newStorage := Gathered(r.storage, r.mem), mem := Packed(r.mem)))
      else None
    case Pickles => Some(r.(at := IgnoresSigint, newData := r.mem))
    case IgnoresSigint => Some(r.(at := RenamesData))
    case RenamesData => Some(r.(at := RaisesFlag, data := Some(r.newData)))
    case RaisesFlag => Some(r.(at := RenamesStorage, flag := true))
    case RenamesStorage => Some(r.(at := LowersFlag, storage := r.newStorage))
    case LowersFlag => Some(r.(at := RestoresSigint, flag := false))
    case RestoresSigint => Some(r.(at := Logs))
    case Logs => Some(r.(at := Reopens))
    case Reopens => Some(r.(at := Leaves))
    case Leaves => Some(r.(at := Returned))
  }

  /** Within the `try` block, whose `except` block asks for the flag? */
  predicate InTry(p: Place) {
    Order(p) < Order(Logs)
  }

  /** An exception that strikes before a step is done: unwinding leaves the files alone, and the process
      ends. */
  function Raised(r: Rewriting): (World, Exit) {
    (World(r.data, r.storage, None), if InTry(r.at) && r.flag then IntegrityException else PlainException)
  }

  /** The rest of the call, with an exception before the step at `strike`; `Returned` stands for none. */
  ghost function Rest(r: Rewriting, strike: Place): (World, Exit)
    requires LegalSnapshot(r.mem)
    decreases Order(Returned) - Order(r.at)
  {
    if r.at == Returned then (World(r.data, r.storage, Some(r.mem)), Fine)
    else if r.at == strike then Raised(r)
    else
      match Advance(r)
      case None => (World(r.data, r.storage, None), IntegrityException)
      case Some(r') => Rest(r', strike)
  }

  function Begun(w: World): Rewriting
    requires w.mem.Some?
  {
    Rewriting(OpensStorageWriter, w.data, w.storage, Snapshot([], []), [], false, w.mem.value)
  }

  /** `maintain_state()` for the present format of the data file. */
  ghost function Maintain(w: World, strike: Place): (World, Exit)
    requires w.mem.Some? && LegalSnapshot(w.mem.value)
  {
    Rest(Begun(w), strike)
  }

  // ---------------------------------------------------------------- what the files hold

  /** Payloads, and which of them are still wanted: what a state stands for. */
  datatype Content = Content(payloads: seq<seq<Byte>>, live: seq<bool>)

  ghost predicate LegalContent(c: Content) {
    |c.payloads| == |c.live|
  }

  /** Every handle loads its payload. */
  ghost predicate Loads(file: seq<Byte>, sn: Snapshot, c: Content) {
    && sn.live == c.live && |sn.live| == |sn.slots| == |c.payloads|
    && Laid(file, sn.slots)
    && forall i :: 0 <= i < |c.payloads| ==> ReadPayload(file, sn.slots[i]) == Ok(c.payloads[i])
  }

  /** The payloads still wanted, in their order. */
  ghost function Purged(c: Content): (r: Content)
    requires LegalContent(c)
    ensures LegalContent(r)
  {
    var ps := Pick(c.payloads, c.live);
    Content(ps, seq(|ps|, _ => true))
  }

  /** A pickled state loads all its payloads after any later saves. */
  lemma LoadsAfterGrowth(file: seq<Byte>, more: seq<Byte>, sn: Snapshot, c: Content)
    requires Loads(file, sn, c)
    ensures Loads(file + more, sn, c)
  {
    forall i | 0 <= i < |c.payloads|
      ensures ReadPayload(file + more, sn.slots[i]) == Ok(c.payloads[i])
    {
      GrowthKeepsPayloads(file, more, sn.slots[i]);
    }
  }

  lemma {:induction false} PickedLoads(file: seq<Byte>, sn: Snapshot, c: Content, k: nat)
    requires Loads(file, sn, c) && k <= |c.payloads|
    ensures var kept, ps := PickFirst(sn.slots, sn.live, k), PickFirst(c.payloads, c.live, k);
            && |kept| == |ps|
            && forall i :: 0 <= i < |ps| ==> ReadPayload(file, kept[i]) == Ok(ps[i])
  {
    if k > 0 {
      PickedLoads(file, sn, c, k - 1);
    }
  }

  /** What a rewrite puts in the two files fits together, and is the live part of what was there. */
  lemma CompactedLoads(file: seq<Byte>, sn: Snapshot, c: Content)
    requires Loads(file, sn, c)
    ensures Shrinkable(file, sn) && Loads(Gathered(file, sn), Packed(sn), Purged(c))
    ensures |Gathered(file, sn)| == TotalSize(Packed(sn).slots)
  {
    PickedLoads(file, sn, c, |c.payloads|);
    CompactionOf(file, sn.slots, sn.live);
    PackSizes(Pick(sn.slots, sn.live), 0);
  }

  // ---------------------------------------------------------------- where an exception may strike

  /** Was the step done before the exception? */
  predicate Past(p: Place, strike: Place) {
    Order(p) < Order(strike)
  }

  /** The files at a place of the call. */
  ghost predicate FilesAt(r: Rewriting, w: World)
    requires w.mem.Some? && LegalSnapshot(w.mem.value)
  {
    var m := w.mem.value;
    && r.data == (if Order(r.at) > Order(RenamesData) then Some(Packed(m)) else w.data)
    && r.storage == (if Order(r.at) > Order(RenamesStorage) then Gathered(w.storage, m) else w.storage)
    && r.mem == (if Order(r.at) > Order(Shrinks) then Packed(m) else m)
    && (Order(r.at) > Order(Shrinks) ==> r.newStorage == Gathered(w.storage, m))
    && (Order(r.at) > Order(Pickles) ==> r.newData == Packed(m))
    && (r.flag <==> r.at == RenamesStorage || r.at == LowersFlag)
  }

  lemma AdvanceKeepsFiles(r: Rewriting, w: World)
    requires w.mem.Some? && LegalSnapshot(w.mem.value) && Shrinkable(w.storage, w.mem.value)
    requires FilesAt(r, w) && r.at != Returned
    ensures LegalSnapshot(r.mem) && Advance(r).Some? && FilesAt(Advance(r).value, w)
  {
  }

  /** How the call ends. */
  ghost predicate EndsAs(w: World, strike: Place, end: (World, Exit))
    requires w.mem.Some? && LegalSnapshot(w.mem.value)
  {
    var m := w.mem.value;
    && end.0.data == (if Past(RenamesData, strike) then Some(Packed(m)) else w.data)
    && end.0.storage == (if Past(RenamesStorage, strike) then Gathered(w.storage, m) else w.storage)
    && end.0.mem == (if strike == Returned then Some(Packed(m)) else None)
    && (end.1 == Fine <==> strike == Returned)
    && (end.1 == IntegrityException <==> strike == RenamesStorage || strike == LowersFlag)
  }

  lemma StopsAs(r: Rewriting, w: World, strike: Place)
    requires w.mem.Some? && LegalSnapshot(w.mem.value) && FilesAt(r, w)
    requires LegalSnapshot(r.mem) && r.at == strike
    ensures EndsAs(w, strike, Rest(r, strike))
  {
  }

  lemma RestOfNext(r: Rewriting, strike: Place)
    requires LegalSnapshot(r.mem) && r.at != Returned && r.at != strike && Advance(r).Some?
    ensures Rest(r, strike) == Rest(Advance(r).value, strike)
  {
  }

  lemma {:induction false} RestEndsAs(r: Rewriting, w: World, strike: Place)
    requires w.mem.Some? && LegalSnapshot(w.mem.value) && Shrinkable(w.storage, w.mem.value)
    requires FilesAt(r, w) && LegalSnapshot(r.mem) && Order(r.at) <= Order(strike)
    ensures EndsAs(w, strike, Rest(r, strike))
    decreases Order(Returned) - Order(r.at)
  {
    if r.at == strike {
      StopsAs(r, w, strike);
    } else {
      AdvanceKeepsFiles(r, w);
      RestOfNext(r, strike);
      RestEndsAs(Advance(r).value, w, strike);
    }
  }

  /** Every handle of the data file, and of the running process, loads its payload. */
  ghost predicate Agrees(w: World, stored: Option<Content>, running: Option<Content>) {
    && w.data.Some? == stored.Some? && w.mem.Some? == running.Some?
    && (stored.Some? ==> Loads(w.storage, w.data.value, stored.value))
    && (running.Some? ==> Loads(w.storage, w.mem.value, running.value))
  }

  /** Rewriting a state never finds it corrupted; and the outcome depends on the place of the exception
      alone: which of the files are new, and that it is an integrity error exactly between raising and
      lowering the flag. */
  lemma MaintainOutcomes(w: World, stored: Option<Content>, c: Content, strike: Place)
    requires Agrees(w, stored, Some(c))
    ensures EndsAs(w, strike, Maintain(w, strike))
  {
    CompactedLoads(w.storage, w.mem.value, c);
    RestEndsAs(Begun(w), w, strike);
  }

  /** Between the two renames the new data file stands beside the old storage file. */
  predicate BetweenRenames(strike: Place) {
    strike == RaisesFlag || strike == RenamesStorage
  }

  /** What the data file then stands for. */
  ghost function ContentAfter(c: Content, stored: Option<Content>, strike: Place): Option<Content>
    requires LegalContent(c)
  {
    if Past(RenamesData, strike) then Some(Purged(c)) else stored
  }

  /** When no dead payload and no gap comes before a live one, the new data file fits the old storage file. */
  lemma MixedLoads(file: seq<Byte>, sn: Snapshot, c: Content)
    requires Loads(file, sn, c) && Undisturbed(sn.slots, sn.live)
    ensures Loads(file, Packed(sn), Purged(c))
  {
    InPlaceExactly(file, sn.slots, sn.live);
    PickStaysLaid(file, sn.slots, sn.live, |sn.slots|);
    PickedLoads(file, sn, c, |c.payloads|);
  }

  /** Between the renames, do the two files fit together all the same? */
  predicate Harmless(m: Snapshot, strike: Place)
    requires |m.live| == |m.slots|
  {
    BetweenRenames(strike) ==> Undisturbed(m.slots, m.live)
  }

  /** The files after a rewrite that was struck. */
  ghost function FilesLeft(w: World, strike: Place): World
    requires w.mem.Some? && LegalSnapshot(w.mem.value)
  {
    var m := w.mem.value;
    if Past(RenamesStorage, strike) then World(Some(Packed(m)), Gathered(w.storage, m), None)
    else if BetweenRenames(strike) then World(Some(Packed(m)), w.storage, None)
    else World(w.data, w.storage, None)
  }

  lemma EndLeaves(w: World, strike: Place, end: (World, Exit))
    requires w.mem.Some? && LegalSnapshot(w.mem.value) && EndsAs(w, strike, end)
    ensures end.0.(mem := None) == FilesLeft(w, strike)
    ensures end.0.mem == if strike == Returned then end.0.data else None
  {
  }

  lemma LeftAgrees(w: World, stored: Option<Content>, c: Content, strike: Place)
    requires Agrees(w, stored, Some(c)) && Harmless(w.mem.value, strike)
    ensures Agrees(FilesLeft(w, strike), ContentAfter(c, stored, strike), None)
  {
    CompactedLoads(w.storage, w.mem.value, c);
    if BetweenRenames(strike) {
      MixedLoads(w.storage, w.mem.value, c);
    }
  }

  /** Wherever else an exception strikes, the two files fit together: the data file's handles load what was
      stored before, or exactly the payloads still wanted. */
  lemma MaintainAgrees(w: World, stored: Option<Content>, c: Content, strike: Place)
    requires Agrees(w, stored, Some(c)) && Harmless(w.mem.value, strike)
    ensures Agrees(Maintain(w, strike).0, ContentAfter(c, stored, strike),
                   if strike == Returned then Some(Purged(c)) else None)
  {
    MaintainOutcomes(w, stored, c, strike);
    EndLeaves(w, strike, Maintain(w, strike));
    LeftAgrees(w, stored, c, strike);
  }

  /** A running process with this state, just restored. */
  function Running(file: seq<Byte>, sn: Snapshot): World {
    World(Some(sn), file, Some(sn))
  }

  /** After an exception between the renames, do the new handles load the wanted payloads from the old
      storage file? */
  ghost predicate MixedPairFits(file: seq<Byte>, sn: Snapshot, c: Content, strike: Place)
    requires LegalSnapshot(sn) && LegalContent(c)
  {
    var end := Maintain(Running(file, sn), strike).0;
    end.data.Some? && Loads(end.storage, end.data.value, Purged(c))
  }

  function ReadAll(file: seq<Byte>, slots: seq<Slot>): seq<seq<Byte>> {
    seq(|slots|, i requires 0 <= i < |slots| => Read(file, slots[i]))
  }

  lemma MixedPairOf(file: seq<Byte>, sn: Snapshot, c: Content, strike: Place)
    requires Loads(file, sn, c) && BetweenRenames(strike)
    ensures MixedPairFits(file, sn, c, strike) <==> Loads(file, Packed(sn), Purged(c))
  {
    MaintainOutcomes(Running(file, sn), Some(c), c, strike);
  }

  lemma FittingStillLoads(file: seq<Byte>, sn: Snapshot, c: Content)
    requires Loads(file, sn, c) && Loads(file, Packed(sn), Purged(c))
    ensures StillLoads(file, sn.slots, sn.live)
  {
    PickedLoads(file, sn, c, |c.payloads|);
  }

  /** Of a layout: whatever the payloads are, the mixed pair fits together, if and only if no dead payload and
      no gap comes before a live one. */
  lemma MixedPairFitsExactly(file: seq<Byte>, sn: Snapshot, strike: Place)
    requires LegalSnapshot(sn) && Laid(file, sn.slots) && BetweenRenames(strike)
    ensures (forall f, c | |f| == |file| && Loads(f, sn, c) :: MixedPairFits(f, sn, c, strike))
            <==> Undisturbed(sn.slots, sn.live)
  {
    if Undisturbed(sn.slots, sn.live) {
      forall f, c | |f| == |file| && Loads(f, sn, c)
        ensures MixedPairFits(f, sn, c, strike)
      {
        MixedLoads(f, sn, c);
        MixedPairOf(f, sn, c, strike);
      }
    } else {
      var f := MovedReadsAnother(file, sn.slots, sn.live);
      var c := Content(ReadAll(f, sn.slots), sn.live);
      assert Loads(f, sn, c);
      if MixedPairFits(f, sn, c, strike) {
        MixedPairOf(f, sn, c, strike);
        FittingStillLoads(f, sn, c);
      }
    }
  }

  // ---------------------------------------------------------------- what a start finds

  const NOTHING := Content([], [])

  ghost function Restored(stored: Option<Content>): Content {
    if stored.Some? then stored.value else NOTHING
  }

  lemma RestoreAgrees(v: World, stored: Option<Content>)
    requires Agrees(v, stored, None)
    ensures Agrees(Restore(v), stored, Some(Restored(stored)))
  {
  }

  /** The promise of the messages: the call succeeds, or the old files are kept intact, or it is reported
      that the two files may not fit together. */
  ghost predicate OldFilesOrIntegrityError(w: World, end: (World, Exit)) {
    end.1 == Fine || end.1 == IntegrityException || (end.0.data == w.data && end.0.storage == w.storage)
  }

  /** Here the promise may fail: after the data file is replaced and before the flag is raised; or after both
      files are replaced and the flag is lowered. */
  predicate InWindow(strike: Place) {
    strike == RaisesFlag || (Past(LowersFlag, strike) && strike != Returned)
  }

  predicate AllLive(sn: Snapshot) {
    forall i :: 0 <= i < |sn.live| ==> sn.live[i]
  }

  /** The rewrite has nothing to do: all handles are live and leave no gap, and, where the storage file has
      been replaced too, it had nothing behind them. */
  predicate NothingToDo(v: World, strike: Place) {
    && v.data.Some? && AllLive(v.data.value) && Tight(v.data.value.slots)
    && (Past(RenamesStorage, strike) ==> |v.storage| == NextFree(v.data.value.slots, |v.data.value.slots|))
  }

  lemma PackedIsSame(file: seq<Byte>, sn: Snapshot, c: Content)
    requires Loads(file, sn, c)
    ensures Packed(sn) == sn <==> AllLive(sn) && Tight(sn.slots)
  {
    var n := |sn.slots|;
    PickAll(sn.slots, sn.live, n);
    TightIsPacked(sn.slots);
    assert sn.slots[..n] == sn.slots;
    if Packed(sn) == sn {
      assert |Pick(sn.slots, sn.live)| == n;
    }
  }

  lemma GatheredIsSame(file: seq<Byte>, sn: Snapshot, c: Content)
    requires Loads(file, sn, c) && AllLive(sn) && Tight(sn.slots)
    ensures Gathered(file, sn) == file <==> |file| == NextFree(sn.slots, |sn.slots|)
  {
    var n := |sn.slots|;
    PickAll(sn.slots, sn.live, n);
    assert sn.slots[..n] == sn.slots;
    TightIsPacked(sn.slots);
    GatherTight(file, sn.slots, 0);
    assert file[0..|file|] == file;
  }

  lemma PromiseOf(w: World, stored: Option<Content>, c: Content, strike: Place)
    requires Agrees(w, stored, Some(c))
    ensures OldFilesOrIntegrityError(w, Maintain(w, strike))
            <==> !InWindow(strike)
                 || (&& w.data == Some(Packed(w.mem.value))
                     && (Past(RenamesStorage, strike) ==> w.storage == Gathered(w.storage, w.mem.value)))
  {
    MaintainOutcomes(w, stored, c, strike);
  }

  /** Of any state that a start finds: the promise holds if and only if the exception strikes outside the
      windows or the rewrite has nothing to do. */
  lemma PromiseHoldsExactly(v: World, stored: Option<Content>, strike: Place)
    requires Agrees(v, stored, None)
    ensures Agrees(Restore(v), stored, Some(Restored(stored)))
    ensures OldFilesOrIntegrityError(Restore(v), Maintain(Restore(v), strike))
            <==> !InWindow(strike) || NothingToDo(v, strike)
  {
    RestoreAgrees(v, stored);
    PromiseOf(Restore(v), stored, Restored(stored), strike);
    if v.data.Some? {
      PackedIsSame(v.storage, v.data.value, stored.value);
      if AllLive(v.data.value) && Tight(v.data.value.slots) {
        GatheredIsSame(v.storage, v.data.value, stored.value);
      }
    }
  }

  // ---------------------------------------------------------------- examples

  const WANTED: seq<Byte> := [PLAIN, 2]
  const UNWANTED: seq<Byte> := [PLAIN, 1]

  /** A stopped process has left one payload no longer wanted and one still wanted. */
  const STOPPED := World(Some(Snapshot([Slot(0, 2), Slot(2, 2)], [false, true])), UNWANTED + WANTED, None)
  const STOPPED_CONTENT := Content([UNWANTED, WANTED], [false, true])

  lemma PickSecond<T>(x: T, y: T)
    ensures Pick([x, y], [false, true]) == [y]
  {
    var xs, flags := [x, y], [false, true];
    assert PickFirst(xs, flags, 0) == [] && PickFirst(xs, flags, 1) == [];
  }

  lemma StoppedAgrees()
    ensures Agrees(STOPPED, Some(STOPPED_CONTENT), None)
    ensures Packed(STOPPED.data.value) == Snapshot([Slot(0, 2)], [true])
    ensures Purged(STOPPED_CONTENT) == Content([WANTED], [true])
  {
    assert Read(STOPPED.storage, Slot(0, 2)) == UNWANTED && Read(STOPPED.storage, Slot(2, 2)) == WANTED;
    PickSecond(Slot(0, 2), Slot(2, 2));
    PickSecond(UNWANTED, WANTED);
    assert Pack([Slot(2, 2)], 0) == [Slot(0, 2)];
  }

  lemma StoppedBreaksThePromise(strike: Place)
    requires InWindow(strike)
    ensures Agrees(Restore(STOPPED), Some(STOPPED_CONTENT), Some(STOPPED_CONTENT))
    ensures !OldFilesOrIntegrityError(Restore(STOPPED), Maintain(Restore(STOPPED), strike))
  {
    StoppedAgrees();
    PromiseHoldsExactly(STOPPED, Some(STOPPED_CONTENT), strike);
    assert !STOPPED.data.value.live[0];
  }

  /** What the first window leaves of it, and what that amounts to. */
  const MIXED := World(Some(Snapshot([Slot(0, 2)], [true])), UNWANTED + WANTED, None)
  const MIXED_CONTENT := Content([UNWANTED], [true])

  lemma PickOnly<T>(x: T)
    ensures Pick([x], [true]) == [x]
  {
    var xs, flags := [x], [true];
    assert PickFirst(xs, flags, 0) == [];
  }

  /** A file read from its start. */
  lemma ReadsFirst(payload: seq<Byte>, more: seq<Byte>)
    requires Prefixed(payload)
    ensures ReadPayload(payload + more, Slot(0, |payload|)) == Ok(payload)
  {
    assert (payload + more)[..|payload|] == payload;
  }

  lemma AllLiveStays(p: seq<Byte>)
    ensures Purged(Content([p], [true])) == Content([p], [true])
  {
    PickOnly(p);
  }

  lemma MixedAgrees()
    ensures Agrees(MIXED, Some(MIXED_CONTENT), None)
  {
    ReadsFirst(UNWANTED, WANTED);
  }

  lemma MixedStarts()
    ensures Agrees(Restore(MIXED), Some(MIXED_CONTENT), Some(MIXED_CONTENT))
    ensures var (w, exit) := Maintain(Restore(MIXED), Returned);
            exit == Fine && w.mem.Some? && Loads(w.storage, w.mem.value, MIXED_CONTENT)
  {
    MixedAgrees();
    AllLiveStays(UNWANTED);
    MaintainOutcomes(Restore(MIXED), Some(MIXED_CONTENT), MIXED_CONTENT, Returned);
    MaintainAgrees(Restore(MIXED), Some(MIXED_CONTENT), MIXED_CONTENT, Returned);
  }

  /** The gravest window: the exception comes between the rename of the data file and line 786, as an
      ordinary one; the next start succeeds, and the event that is still kept then loads the payload of
      another one. */
  lemma UnreportedMixLoadsAnotherPayload()
    ensures Agrees(STOPPED, Some(STOPPED_CONTENT), None) && Purged(STOPPED_CONTENT).payloads == [WANTED]
    ensures Agrees(Restore(STOPPED), Some(STOPPED_CONTENT), Some(STOPPED_CONTENT))
    ensures Maintain(Restore(STOPPED), RaisesFlag) == (MIXED, PlainException)
    ensures var (w, exit) := Maintain(Restore(MIXED), Returned);
            exit == Fine && w.mem.Some? && Loads(w.storage, w.mem.value, Content([UNWANTED], [true]))
  {
    StoppedAgrees();
    RestoreAgrees(STOPPED, Some(STOPPED_CONTENT));
    MaintainOutcomes(Restore(STOPPED), Some(STOPPED_CONTENT), STOPPED_CONTENT, RaisesFlag);
    MixedStarts();
  }
}
