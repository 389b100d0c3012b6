/** Whole histories of the aggregator's state: saves, finished events, stops, crashes and starts, and what
    they should amount to. */
module AggregatorHistories {
  import opened Options
  import opened PayloadStorage
  import opened PayloadLayouts
  import opened AggregatorState

  // ---------------------------------------------------------------- runs, and what they should amount to

  datatype Op =
    | OpSave(payload: seq<Byte>)
    | OpFinish(i: nat)
    | OpStore(fails: bool)
    | OpCrash
    | OpStart(strike: Place)

  ghost predicate LegalWorld(w: World) {
    && (w.data.Some? ==> LegalSnapshot(w.data.value))
    && (w.mem.Some? ==> LegalSnapshot(w.mem.value))
  }

  /** One operation; `None` when it does not apply, or when an exception between the two renames leaves
      files that need not fit together. */
  ghost function Step(w: World, op: Op): (r: Option<World>)
    requires LegalWorld(w)
  {
    match op
    case OpSave(p) => if w.mem.Some? && Prefixed(p) then Some(Save(w, p)) else None
    case OpFinish(i) => if w.mem.Some? && i < |w.mem.value.live| then Some(Finish(w, i)) else None
    case OpStore(fails) => if w.mem.Some? then Some(StoreState(w, fails)) else None
    case OpCrash => if w.mem.Some? then Some(Crash(w)) else None
    case OpStart(strike) =>
      if w.mem.Some? || !Harmless(Restore(w).mem.value, strike) then None
      else Some(Maintain(Restore(w), strike).0)
  }

  /** What should be stored and what should be in memory, from the operations alone: no files, no
      offsets. */
  datatype Account = Account(stored: Option<Content>, running: Option<Content>)

  ghost predicate LegalAccount(a: Account) {
    && (a.stored.Some? ==> LegalContent(a.stored.value))
    && (a.running.Some? ==> LegalContent(a.running.value))
  }

  /** What a start struck there amounts to. */
  ghost function AccountAfter(stored: Option<Content>, strike: Place): Account
    requires stored.Some? ==> LegalContent(stored.value)
  {
    var c := Restored(stored);
    Account(ContentAfter(c, stored, strike), if strike == Returned then Some(Purged(c)) else None)
  }

  ghost function Expected(a: Account, op: Op): (r: Option<Account>)
    requires LegalAccount(a)
    ensures r.Some? ==> LegalAccount(r.value)
  {
    match op
    case OpSave(p) =>
      if a.running.None? || !Prefixed(p) then None
      else
        var c := a.running.value;
        Some(a.(running := Some(Content(c.payloads + [p], c.live + [true]))))
    case OpFinish(i) =>
      if a.running.None? || i >= |a.running.value.live| then None
      else Some(a.(running := Some(a.running.value.(live := a.running.value.live[i := false]))))
    case OpStore(fails) =>
      if a.running.None? then None
      else Some(Account(if fails then a.stored else a.running, None))
    case OpCrash => if a.running.None? then None else Some(a.(running := None))
    case OpStart(strike) =>
      // between the renames: no unwanted payload before a wanted one
      if a.running.Some? || (BetweenRenames(strike) && !Leading(Restored(a.stored).live)) then None
      else Some(AccountAfter(a.stored, strike))
  }

  lemma SaveAgrees(w: World, a: Account, payload: seq<Byte>)
    requires Agrees(w, a.stored, a.running) && LegalAccount(a) && w.mem.Some? && Prefixed(payload)
    ensures var b := Expected(a, OpSave(payload)).value; Agrees(Save(w, payload), b.stored, b.running)
  {
    if a.stored.Some? {
      LoadsAfterGrowth(w.storage, payload, w.data.value, a.stored.value);
    }
    LoadsAfterGrowth(w.storage, payload, w.mem.value, a.running.value);
    SaveKeepsLaid(w.storage, w.mem.value.slots, payload);
  }

  /** A stored state has no gaps. */
  ghost predicate TightData(w: World) {
    w.data.Some? ==> Tight(w.data.value.slots)
  }

  /** There are no gaps: a process saves right behind its last payload. */
  ghost predicate TightFiles(w: World) {
    && TightData(w)
    && (w.mem.Some? ==>
          Tight(w.mem.value.slots) && |w.storage| == NextFree(w.mem.value.slots, |w.mem.value.slots|))
  }

  lemma SaveKeepsTight(w: World, payload: seq<Byte>)
    requires TightFiles(w) && w.mem.Some?
    ensures TightFiles(Save(w, payload))
  {
    TightNext(w.mem.value.slots, Slot(|w.storage|, |payload|));
  }

  lemma MaintainKeepsTight(w: World, stored: Option<Content>, c: Content, strike: Place)
    requires Agrees(w, stored, Some(c)) && TightData(w)
    ensures TightFiles(Maintain(w, strike).0)
  {
    MaintainOutcomes(w, stored, c, strike);
    CompactedLoads(w.storage, w.mem.value, c);
    var kept := Pick(w.mem.value.slots, w.mem.value.live);
    PackedIsTight(kept);
    PackSizes(kept, 0);
  }

  /** The operations apply to both or to neither; the files hold what they should, without gaps. */
  ghost predicate Fits(w: Option<World>, a: Option<Account>) {
    && w.Some? == a.Some?
    && (w.Some? ==> Agrees(w.value, a.value.stored, a.value.running) && TightFiles(w.value))
  }

  /** Each operation on the files does what it should amount to. */
  lemma StepAgrees(w: World, a: Account, op: Op)
    requires Agrees(w, a.stored, a.running) && LegalAccount(a) && TightFiles(w)
    ensures Fits(Step(w, op), Expected(a, op))
  {
    match op
    case OpSave(p) =>
      if w.mem.Some? && Prefixed(p) {
        SaveAgrees(w, a, p);
        SaveKeepsTight(w, p);
      }
    case OpFinish(i) =>
    case OpStore(fails) =>
    case OpCrash =>
    case OpStart(strike) =>
      if w.mem.None? {
        StartAgrees(w, a, strike);
      }
  }

  lemma HarmlessWhenLeading(w: World, stored: Option<Content>, strike: Place)
    requires Agrees(w, stored, None) && TightData(w)
    ensures LegalSnapshot(Restore(w).mem.value)
    ensures Harmless(Restore(w).mem.value, strike) <==> (BetweenRenames(strike) ==> Leading(Restored(stored).live))
  {
    RestoreAgrees(w, stored);
    var m := Restore(w).mem.value;
    UndisturbedWhenTight(m.slots, m.live);
  }

  lemma HarmlessStartAgrees(w: World, stored: Option<Content>, strike: Place)
    requires Agrees(w, stored, None) && TightData(w)
    requires LegalSnapshot(Restore(w).mem.value) && Harmless(Restore(w).mem.value, strike)
    ensures Fits(Some(Maintain(Restore(w), strike).0), Some(AccountAfter(stored, strike)))
  {
    RestoreAgrees(w, stored);
    MaintainAgrees(Restore(w), stored, Restored(stored), strike);
    MaintainKeepsTight(Restore(w), stored, Restored(stored), strike);
  }

  lemma StepOfStart(w: World, strike: Place)
    requires LegalWorld(w) && w.mem.None?
    ensures LegalSnapshot(Restore(w).mem.value)
    ensures Step(w, OpStart(strike))
            == if Harmless(Restore(w).mem.value, strike) then Some(Maintain(Restore(w), strike).0) else None
  {
  }

  lemma ExpectedOfStart(a: Account, strike: Place)
    requires LegalAccount(a) && a.running.None?
    ensures Expected(a, OpStart(strike))
            == if BetweenRenames(strike) && !Leading(Restored(a.stored).live) then None
               else Some(AccountAfter(a.stored, strike))
  {
  }

  lemma StartAgrees(w: World, a: Account, strike: Place)
    requires Agrees(w, a.stored, None) && a.running.None? && LegalAccount(a) && TightData(w)
    ensures Fits(Step(w, OpStart(strike)), Expected(a, OpStart(strike)))
  {
    StepOfStart(w, strike);
    ExpectedOfStart(a, strike);
    HarmlessWhenLeading(w, a.stored, strike);
    if Harmless(Restore(w).mem.value, strike) {
      HarmlessStartAgrees(w, a.stored, strike);
    } else {
      assert Step(w, OpStart(strike)).None? && Expected(a, OpStart(strike)).None?;
    }
  }

  // ---------------------------------------------------------------- whole histories

  /** `None` when some operation does not apply. */
  ghost function Run(w: World, ops: seq<Op>): Option<World> {
    if ops == [] then Some(w)
    else
      var last := |ops| - 1;
      match Run(w, ops[..last])
      case None => None
      case Some(v) => if LegalWorld(v) then Step(v, ops[last]) else None
  }

  ghost function ExpectedOf(ops: seq<Op>): (r: Option<Account>)
    ensures r.Some? ==> LegalAccount(r.value)
  {
    if ops == [] then Some(Account(None, None))
    else
      var last := |ops| - 1;
      match ExpectedOf(ops[..last])
      case None => None
      case Some(a) => Expected(a, ops[last])
  }

  /** Before the first start: no data file, and anything in the storage file. */
  function Untouched(rubbish: seq<Byte>): World {
    World(None, rubbish, None)
  }

  /** Over any history, with failures and exceptions at any place (between the renames as long as no unwanted
      payload precedes a wanted one), every handle in the data file and in memory loads the payload it was made
      for. */
  lemma {:induction false} RunAgrees(rubbish: seq<Byte>, ops: seq<Op>)
    ensures Fits(Run(Untouched(rubbish), ops), ExpectedOf(ops))
  {
    if ops != [] {
      var last := |ops| - 1;
      RunAgrees(rubbish, ops[..last]);
      if ExpectedOf(ops[..last]).Some? {
        StepAgrees(Run(Untouched(rubbish), ops[..last]).value, ExpectedOf(ops[..last]).value, ops[last]);
      }
    }
  }

  /** A rewrite that meets no exception: the call is fine, every handle in memory loads its payload from the
      storage file, the payloads are `c`, and the storage file holds nothing else. */
  ghost predicate GoesOnWith(end: (World, Exit), c: Content) {
    && end.1 == Fine && end.0.mem.Some? && end.0.data == end.0.mem
    && Loads(end.0.storage, end.0.mem.value, c)
    && |end.0.storage| == TotalSize(end.0.mem.value.slots)
  }

  /** A start that meets no exception. */
  ghost function Start(w: World): (World, Exit)
    requires LegalWorld(w)
  {
    Maintain(Restore(w), Returned)
  }

  lemma FineEnd(w: World, end: (World, Exit))
    requires w.mem.Some? && LegalSnapshot(w.mem.value) && EndsAs(w, Returned, end)
    ensures var packed := Some(Packed(w.mem.value));
            end == (World(packed, Gathered(w.storage, w.mem.value), packed), Fine)
  {
  }

  lemma MaintainGoesOn(w: World, stored: Option<Content>, c: Content)
    requires Agrees(w, stored, Some(c))
    ensures GoesOnWith(Maintain(w, Returned), Purged(c))
  {
    MaintainOutcomes(w, stored, c, Returned);
    CompactedLoads(w.storage, w.mem.value, c);
    FineEnd(w, Maintain(w, Returned));
  }

  ghost predicate StartGoesOnWith(w: World, c: Content) {
    LegalWorld(w) && GoesOnWith(Start(w), c)
  }

  lemma StartBringsBack(w: World, a: Account)
    requires Agrees(w, a.stored, None) && LegalAccount(a)
    ensures StartGoesOnWith(w, Purged(Restored(a.stored)))
  {
    RestoreAgrees(w, a.stored);
    MaintainGoesOn(Restore(w), a.stored, Restored(a.stored));
  }

  /** After any history the next start brings back exactly the payloads that, by the operations alone,
      were wanted when the state was last written, in their order. */
  lemma {:induction false} StartBringsBackTheLastStoredState(rubbish: seq<Byte>, ops: seq<Op>, stored: Option<Content>)
    requires ExpectedOf(ops) == Some(Account(stored, None))
    ensures Run(Untouched(rubbish), ops).Some?
    ensures StartGoesOnWith(Run(Untouched(rubbish), ops).value, Purged(Restored(stored)))
  {
    RunAgrees(rubbish, ops);
    StartBringsBack(Run(Untouched(rubbish), ops).value, Account(stored, None));
  }

  /** A stop and the next start go on with exactly the payloads still wanted. */
  lemma {:induction false} StopThenStart(w: World, stored: Option<Content>, c: Content)
    requires Agrees(w, stored, Some(c))
    ensures StartGoesOnWith(StoreState(w, false), Purged(c))
  {
    StartBringsBack(StoreState(w, false), Account(Some(c), None));
  }

  // ---------------------------------------------------------------- the promise, over all histories

  /** A state that a start may find. */
  ghost predicate MayStart(rubbish: seq<Byte>, ops: seq<Op>) {
    Run(Untouched(rubbish), ops).Some? && Run(Untouched(rubbish), ops).value.mem.None?
  }

  ghost predicate PromiseKept(v: World, strike: Place) {
    LegalWorld(v) && OldFilesOrIntegrityError(Restore(v), Maintain(Restore(v), strike))
  }

  lemma RunNext(w: World, ops: seq<Op>, op: Op, u: World)
    requires Run(w, ops).Some? && LegalWorld(Run(w, ops).value) && Step(Run(w, ops).value, op) == Some(u)
    ensures Run(w, ops + [op]) == Some(u)
  {
    assert (ops + [op])[..|ops|] == ops;
  }

  /** A first start, two payloads saved, the first one finished, an orderly stop. */
  const BEGUN: seq<Op> := [] + [OpStart(Returned)]
  const EXAMPLE: seq<Op> := BEGUN + [OpSave(UNWANTED)] + [OpSave(WANTED)] + [OpFinish(0)] + [OpStore(false)]

  const EMPTY := Snapshot([], [])

  lemma MaintainEmpty()
    ensures Maintain(World(None, [], Some(EMPTY)), Returned) == (World(Some(EMPTY), [], Some(EMPTY)), Fine)
  {
    var w := World(None, [], Some(EMPTY));
    assert Agrees(w, None, Some(NOTHING));
    MaintainOutcomes(w, None, NOTHING, Returned);
    FineEnd(w, Maintain(w, Returned));
  }

  lemma FirstStart(rubbish: seq<Byte>)
    ensures Run(Untouched(rubbish), BEGUN) == Some(World(Some(EMPTY), [], Some(EMPTY)))
  {
    MaintainEmpty();
    RunNext(Untouched(rubbish), [], OpStart(Returned), World(Some(EMPTY), [], Some(EMPTY)));
  }

  lemma FirstSave()
    ensures Step(World(Some(EMPTY), [], Some(EMPTY)), OpSave(UNWANTED))
            == Some(World(Some(EMPTY), UNWANTED, Some(Snapshot([Slot(0, 2)], [true]))))
  {
    assert [] + UNWANTED == UNWANTED && [] + [Slot(0, 2)] == [Slot(0, 2)] && [] + [true] == [true];
  }

  const BOTH := [Slot(0, 2), Slot(2, 2)]

  lemma SecondSave()
    ensures Step(World(Some(EMPTY), UNWANTED, Some(Snapshot([Slot(0, 2)], [true]))), OpSave(WANTED))
            == Some(World(Some(EMPTY), UNWANTED + WANTED, Some(Snapshot(BOTH, [true, true]))))
  {
    assert [Slot(0, 2)] + [Slot(2, 2)] == BOTH && [true] + [true] == [true, true];
  }

  lemma FinishAndStop()
    ensures var w := World(Some(EMPTY), UNWANTED + WANTED, Some(Snapshot(BOTH, [false, true])));
            && Step(World(Some(EMPTY), UNWANTED + WANTED, Some(Snapshot(BOTH, [true, true]))), OpFinish(0)) == Some(w)
            && Step(w, OpStore(false)) == Some(STOPPED)
  {
    assert [true, true][0 := false] == [false, true];
  }

  /** The state of the examples is one that a start does find. */
  lemma ExampleIsReached(rubbish: seq<Byte>)
    ensures Run(Untouched(rubbish), EXAMPLE) == Some(STOPPED)
  {
    var w := Untouched(rubbish);
    FirstStart(rubbish);
    FirstSave();
    RunNext(w, BEGUN, OpSave(UNWANTED), World(Some(EMPTY), UNWANTED, Some(Snapshot([Slot(0, 2)], [true]))));
    SecondSave();
    var saved := BEGUN + [OpSave(UNWANTED)];
    RunNext(w, saved, OpSave(WANTED), World(Some(EMPTY), UNWANTED + WANTED, Some(Snapshot(BOTH, [true, true]))));
    FinishAndStop();
    var both := saved + [OpSave(WANTED)];
    RunNext(w, both, OpFinish(0), World(Some(EMPTY), UNWANTED + WANTED, Some(Snapshot(BOTH, [false, true]))));
    RunNext(w, both + [OpFinish(0)], OpStore(false), STOPPED);
  }

  /** The promise is kept by every start after every history if and only if the exception does not strike in a
      window. */
  lemma PromiseFailsExactlyInTheWindows(strike: Place)
    ensures (forall rubbish, ops | MayStart(rubbish, ops) :: PromiseKept(Run(Untouched(rubbish), ops).value, strike))
            <==> !InWindow(strike)
  {
    if InWindow(strike) {
      ExampleIsReached([]);
      StoppedBreaksThePromise(strike);
      assert MayStart([], EXAMPLE) && !PromiseKept(Run(Untouched([]), EXAMPLE).value, strike);
    } else {
      forall rubbish, ops | MayStart(rubbish, ops)
        ensures PromiseKept(Run(Untouched(rubbish), ops).value, strike)
      {
        RunAgrees(rubbish, ops);
        PromiseHoldsExactly(Run(Untouched(rubbish), ops).value, ExpectedOf(ops).value.stored, strike);
      }
    }
  }
}
