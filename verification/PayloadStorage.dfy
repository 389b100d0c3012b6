/** The aggregator's payload storage: an append-only file of payloads, addressed by handle objects
    that the events share, and compacted by rewriting the file and the handles' offsets in place. */
module PayloadStorage {
  import opened Options

  newtype Byte = b: int | 0 <= b < 256

  const PLAIN: Byte := 80        // b'P'
  const COMPRESSED: Byte := 67   // b'C'

  datatype Failure = IntegrityError | AssertionFailed

  /** Where a payload lies. */
  datatype Slot = Slot(offset: nat, size: nat)

  // ---------------------------------------------------------------- reading

  /** A place, or the end of the file when that comes first. */
  function Within(file: seq<Byte>, place: nat): (r: nat)
    ensures r <= |file|
  {
    if place < |file| then place else |file|
  }

  /** Seek and read: what lies behind the end of the file is not returned. */
  function Read(file: seq<Byte>, s: Slot): seq<Byte> {
    file[Within(file, s.offset)..Within(file, s.offset + s.size)]
  }

  predicate Prefixed(bytes: seq<Byte>) {
    bytes != [] && (bytes[0] == PLAIN || bytes[0] == COMPRESSED)
  }

  /** `_read_payload_bytes()` after a seek. */
  function ReadPayload(file: seq<Byte>, s: Slot): Result<seq<Byte>, Failure> {
    var bytes := Read(file, s);
    if s.size == 0 then Err(AssertionFailed)
    else if |bytes| != s.size || !Prefixed(bytes) then Err(IntegrityError)
    else Ok(bytes)
  }

  /** Reading succeeds exactly on bytes that are all there and begin with a format prefix; asking for none of
      them is another error than not finding them. */
  lemma ReadPayloadExactly(file: seq<Byte>, s: Slot)
    ensures ReadPayload(file, s).Ok? <==>
              && 0 < s.size && s.offset + s.size <= |file|
              && (file[s.offset] as int == 'P' as int || file[s.offset] as int == 'C' as int)
    ensures ReadPayload(file, s).Ok? ==> ReadPayload(file, s).value == file[s.offset..s.offset + s.size]
    ensures ReadPayload(file, s) == Err(AssertionFailed) <==> s.size == 0
    ensures ReadPayload(file, s).Err? && s.size > 0 ==> ReadPayload(file, s) == Err(IntegrityError)
  {
  }

  // ---------------------------------------------------------------- layout

  /** Every slot holds a payload, and each one starts where an earlier one has already ended. */
  ghost predicate Laid(file: seq<Byte>, slots: seq<Slot>) {
    && (forall i :: 0 <= i < |slots| ==> ReadPayload(file, slots[i]).Ok?)
    && (forall i, j :: 0 <= i < j < |slots| ==> slots[i].offset + slots[i].size <= slots[j].offset)
  }

  function TotalSize(slots: seq<Slot>): nat {
    if slots == [] then 0 else slots[0].size + TotalSize(slots[1..])
  }

  /** The payloads of the slots, one after the other: the rewritten file. */
  function Gather(file: seq<Byte>, slots: seq<Slot>): seq<Byte> {
    if slots == [] then [] else Read(file, slots[0]) + Gather(file, slots[1..])
  }

  /** The same slots, contiguous from `base`: the rewritten offsets. */
  function Pack(slots: seq<Slot>, base: nat): (r: seq<Slot>)
    ensures |r| == |slots|
  {
    if slots == [] then [] else [Slot(base, slots[0].size)] + Pack(slots[1..], base + slots[0].size)
  }

  /** The checks `shrink_disk_space()` makes while it copies: each slot starts at or after the end of
      the one before, and holds a payload (an empty one cannot be read). */
  predicate Copyable(file: seq<Byte>, slots: seq<Slot>, end: nat) {
    slots == [] ||
    (&& slots[0].offset >= end
     && ReadPayload(file, slots[0]).Ok?
     && Copyable(file, slots[1..], slots[0].offset + slots[0].size))
  }

  lemma {:induction false} LaidIsCopyable(file: seq<Byte>, slots: seq<Slot>, end: nat)
    requires Laid(file, slots)
    requires slots != [] ==> end <= slots[0].offset
    ensures Copyable(file, slots, end)
    decreases |slots|
  {
    if slots != [] {
      var rest := slots[1..];
      assert forall i :: 0 <= i < |rest| ==> rest[i] == slots[i + 1];
      assert Laid(file, rest);
      LaidIsCopyable(file, rest, slots[0].offset + slots[0].size);
    }
  }

  lemma {:induction false} GatherSize(file: seq<Byte>, slots: seq<Slot>)
    requires forall i :: 0 <= i < |slots| ==> ReadPayload(file, slots[i]).Ok?
    ensures |Gather(file, slots)| == TotalSize(slots)
  {
    if slots != [] {
      assert ReadPayload(file, slots[0]).Ok?;
      assert forall i :: 0 <= i < |slots[1..]| ==> slots[1..][i] == slots[i + 1];
      GatherSize(file, slots[1..]);
    }
  }

  /** Packed slots start where the sizes before them add up. */
  lemma {:induction false} PackedAt(slots: seq<Slot>, base: nat, i: nat)
    requires i < |slots|
    ensures Pack(slots, base)[i] == Slot(base + TotalSize(slots[..i]), slots[i].size)
  {
    if i > 0 {
      PackedAt(slots[1..], base + slots[0].size, i - 1);
      assert slots[..i][1..] == slots[1..][..i - 1];
    }
  }

  lemma PieceAt(a: seq<Byte>, b: seq<Byte>, c: seq<Byte>)
    ensures (a + (b + c))[|a|..|a| + |b|] == b
    ensures a + (b + c) == (a + b) + c
  {
  }

  lemma FirstPackedReadsTheSame(file: seq<Byte>, slot: Slot, before: seq<Byte>, after: seq<Byte>)
    requires ReadPayload(file, slot).Ok?
    ensures Read(before + (Read(file, slot) + after), Slot(|before|, slot.size)) == Read(file, slot)
  {
    PieceAt(before, Read(file, slot), after);
  }

  lemma PackedLater(slots: seq<Slot>, base: nat, i: nat)
    requires 0 < i < |slots|
    ensures Pack(slots, base)[i] == Pack(slots[1..], base + slots[0].size)[i - 1]
  {
  }

  lemma GatheredAfter(file: seq<Byte>, slots: seq<Slot>, before: seq<Byte>)
    requires slots != []
    ensures before + Gather(file, slots) == (before + Read(file, slots[0])) + Gather(file, slots[1..])
  {
    PieceAt(before, Read(file, slots[0]), Gather(file, slots[1..]));
  }

  /** Compaction moves payloads without changing them. */
  lemma {:induction false} PackedReadsTheSame(file: seq<Byte>, slots: seq<Slot>, before: seq<Byte>, i: nat)
    requires forall k :: 0 <= k < |slots| ==> ReadPayload(file, slots[k]).Ok?
    requires i < |slots|
    ensures Read(before + Gather(file, slots), Pack(slots, |before|)[i]) == Read(file, slots[i])
    decreases i
  {
    assert ReadPayload(file, slots[0]).Ok?;
    if i == 0 {
      FirstPackedReadsTheSame(file, slots[0], before, Gather(file, slots[1..]));
    } else {
      PackedReadsTheSame(file, slots[1..], before + Read(file, slots[0]), i - 1);
      GatheredAfter(file, slots, before);
      PackedLater(slots, |before|, i);
    }
  }

  lemma {:induction false} TotalSizeSplit(slots: seq<Slot>, i: nat, j: nat)
    requires i <= j <= |slots|
    ensures TotalSize(slots[..j]) == TotalSize(slots[..i]) + TotalSize(slots[i..j])
    decreases i
  {
    if i == 0 {
      assert slots[0..j] == slots[..j];
    } else {
      TotalSizeSplit(slots[1..], i - 1, j - 1);
      assert slots[..j][1..] == slots[1..][..j - 1] && slots[..i][1..] == slots[1..][..i - 1];
      assert slots[i..j] == slots[1..][i - 1..j - 1];
    }
  }

  /** A compacted file: the slots lie contiguously from 0, fill the file completely, and hold the same
      payloads as before, in the same order. */
  ghost predicate Compaction(file: seq<Byte>, slots: seq<Slot>, file': seq<Byte>, slots': seq<Slot>) {
    && |slots'| == |slots| && |file'| == TotalSize(slots') == TotalSize(slots)
    && (forall i :: 0 <= i < |slots| ==> slots'[i].offset == TotalSize(slots'[..i]))
    && (forall i :: 0 <= i < |slots| ==> ReadPayload(file', slots'[i]) == ReadPayload(file, slots[i]))
  }

  lemma PackedSlot(file: seq<Byte>, slots: seq<Slot>, i: nat)
    requires Laid(file, slots) && i < |slots|
    ensures Pack(slots, 0)[i] == Slot(TotalSize(slots[..i]), slots[i].size)
    ensures TotalSize(Pack(slots, 0)[..i]) == TotalSize(slots[..i])
    ensures ReadPayload(Gather(file, slots), Pack(slots, 0)[i]) == ReadPayload(file, slots[i])
  {
    PackedAt(slots, 0, i);
    PackPrefix(slots, 0, i);
    PackSizes(slots[..i], 0);
    PackedReadsTheSame(file, slots, [], i);
    assert [] + Gather(file, slots) == Gather(file, slots);
  }

  lemma PackedOrder(slots: seq<Slot>, i: nat, j: nat)
    requires i < j <= |slots|
    ensures TotalSize(slots[..i]) + slots[i].size <= TotalSize(slots[..j])
  {
    TotalSizeSplit(slots, i, j);
    assert slots[i..j][0] == slots[i];
  }

  /** The rewritten file with the rewritten offsets is a compaction, and can be compacted again. */
  lemma GatherIsCompaction(file: seq<Byte>, slots: seq<Slot>)
    requires Laid(file, slots)
    ensures Compaction(file, slots, Gather(file, slots), Pack(slots, 0))
    ensures Laid(Gather(file, slots), Pack(slots, 0))
  {
    GatherSize(file, slots);
    PackSizes(slots, 0);
    forall i | 0 <= i < |slots|
      ensures Pack(slots, 0)[i].offset == TotalSize(Pack(slots, 0)[..i])
      ensures ReadPayload(Gather(file, slots), Pack(slots, 0)[i]) == ReadPayload(file, slots[i])
    {
      PackedSlot(file, slots, i);
    }
    forall i, j | 0 <= i < j < |slots|
      ensures Pack(slots, 0)[i].offset + Pack(slots, 0)[i].size <= Pack(slots, 0)[j].offset
    {
      PackedSlot(file, slots, i);
      PackedSlot(file, slots, j);
      PackedOrder(slots, i, j);
    }
  }

  /** Payloads stay readable while the file grows at its end. */
  lemma GrowthKeepsPayloads(file: seq<Byte>, more: seq<Byte>, s: Slot)
    requires ReadPayload(file, s).Ok?
    ensures ReadPayload(file + more, s) == ReadPayload(file, s)
  {
    assert Read(file + more, s) == Read(file, s);
  }

  // ---------------------------------------------------------------- the objects

  class PayloadHandle {
    var offset: nat
    var size: nat

    constructor (offset: nat, size: nat)
      ensures this.offset == offset && this.size == size
    {
      this.offset, this.size := offset, size;
    }
  }

  ghost function Slots(hs: seq<PayloadHandle>): (r: seq<Slot>)
    reads hs
    ensures |r| == |hs| && forall i :: 0 <= i < |hs| ==> r[i] == Slot(hs[i].offset, hs[i].size)
  {
    seq(|hs|, i requires 0 <= i < |hs| reads hs => Slot(hs[i].offset, hs[i].size))
  }

  ghost predicate Distinct(hs: seq<PayloadHandle>) {
    forall i, j :: 0 <= i < j < |hs| ==> hs[i] != hs[j]
  }

  /** The payloads of `slots` are written. */
  ghost predicate Written(file: seq<Byte>, slots: seq<Slot>, written: seq<Byte>) {
    written == Gather(file, slots) && |written| == TotalSize(slots)
  }

  lemma {:induction false} GatherAppend(file: seq<Byte>, slots: seq<Slot>, x: Slot)
    ensures Gather(file, slots + [x]) == Gather(file, slots) + Read(file, x)
    ensures TotalSize(slots + [x]) == TotalSize(slots) + x.size
  {
    if slots == [] {
      assert slots + [x] == [x] && Gather(file, [x]) == Read(file, x) + Gather(file, []);
    } else {
      GatherAppend(file, slots[1..], x);
      assert (slots + [x])[1..] == slots[1..] + [x];
    }
  }

  lemma {:induction false} PackAppend(slots: seq<Slot>, x: Slot, base: nat)
    ensures Pack(slots + [x], base) == Pack(slots, base) + [Slot(base + TotalSize(slots), x.size)]
  {
    if slots == [] {
      assert slots + [x] == [x];
    } else {
      PackAppend(slots[1..], x, base + slots[0].size);
      assert (slots + [x])[1..] == slots[1..] + [x];
    }
  }

  lemma WriteOneMore(file: seq<Byte>, slots: seq<Slot>, x: Slot, written: seq<Byte>)
    requires Written(file, slots, written) && ReadPayload(file, x).Ok?
    ensures Written(file, slots + [x], written + ReadPayload(file, x).value)
    ensures Pack(slots + [x], 0) == Pack(slots, 0) + [Slot(|written|, x.size)]
  {
    GatherAppend(file, slots, x);
    PackAppend(slots, x, 0);
  }

  /** Where the last of the slots ends. */
  function End(slots: seq<Slot>, start: nat): nat {
    if slots == [] then start else slots[|slots| - 1].offset + slots[|slots| - 1].size
  }

  lemma {:induction false} CopyableAppend(file: seq<Byte>, slots: seq<Slot>, x: Slot, end: nat)
    ensures Copyable(file, slots + [x], end) <==>
            Copyable(file, slots, end) && x.offset >= End(slots, end) && ReadPayload(file, x).Ok?
  {
    if slots == [] {
      assert slots + [x] == [x];
    } else {
      CopyableAppend(file, slots[1..], x, slots[0].offset + slots[0].size);
      assert (slots + [x])[1..] == slots[1..] + [x];
    }
  }

  /** The slots pass the checks, their payloads are written, and the last one ends at `end`. */
  ghost predicate Progress(file: seq<Byte>, slots: seq<Slot>, written: seq<Byte>, end: nat) {
    Copyable(file, slots, 0) && Written(file, slots, written) && end == End(slots, 0)
  }

  /** What passes the checks as a whole passes them up to any place. */
  lemma {:induction false} CopyableUpTo(file: seq<Byte>, slots: seq<Slot>, flags: seq<bool>, k: nat, n: nat)
    requires |flags| == |slots| && k <= n <= |slots|
    requires Copyable(file, PickFirst(slots, flags, n), 0)
    ensures Copyable(file, PickFirst(slots, flags, k), 0)
    decreases n
  {
    if k < n {
      if flags[n - 1] {
        CopyableAppend(file, PickFirst(slots, flags, n - 1), slots[n - 1], 0);
      }
      CopyableUpTo(file, slots, flags, k, n - 1);
    }
  }

  /** What the check and the copy of slot `k` mean for the whole list. */
  lemma CheckOneMore(file: seq<Byte>, slots: seq<Slot>, flags: seq<bool>, k: nat, written: seq<Byte>, end: nat)
    requires |flags| == |slots| && k < |slots| && flags[k]
    requires Progress(file, PickFirst(slots, flags, k), written, end)
    ensures var done, more, x := PickFirst(slots, flags, k), PickFirst(slots, flags, k + 1), slots[k];
            && (Copyable(file, Pick(slots, flags), 0) ==> x.offset >= end && ReadPayload(file, x).Ok?)
            && (x.offset >= end && ReadPayload(file, x).Ok? ==>
                  && Progress(file, more, written + ReadPayload(file, x).value, x.offset + x.size)
                  && Pack(more, 0) == Pack(done, 0) + [Slot(|written|, x.size)])
  {
    var done := PickFirst(slots, flags, k);
    CopyableAppend(file, done, slots[k], 0);
    if Copyable(file, Pick(slots, flags), 0) {
      CopyableUpTo(file, slots, flags, k + 1, |slots|);
    }
    if ReadPayload(file, slots[k]).Ok? {
      WriteOneMore(file, done, slots[k], written);
    }
  }

  /** The handles from `k` on still have their old slots. */
  ghost predicate Unmoved(hs: seq<PayloadHandle>, k: nat, slots: seq<Slot>)
    reads hs
  {
    |slots| == |hs| && forall i :: k <= i < |hs| ==> Slot(hs[i].offset, hs[i].size) == slots[i]
  }

  lemma NotYetPicked(hs: seq<PayloadHandle>, flags: seq<bool>, k: nat)
    requires |flags| == |hs| && k < |hs| && Distinct(hs)
    ensures hs[k] !in PickFirst(hs, flags, k)
  {
    if hs[k] in PickFirst(hs, flags, k) {
      var j :| 0 <= j < |PickFirst(hs, flags, k)| && PickFirst(hs, flags, k)[j] == hs[k];
      var i := Picked(hs, flags, k, j);
    }
  }

  lemma SlotsAppend(hs: seq<PayloadHandle>, h: PayloadHandle)
    ensures Slots(hs + [h]) == Slots(hs) + [Slot(h.offset, h.size)]
  {
  }

  /** Compacting the picked slots of a valid layout passes all checks. */
  lemma CompactionOf(file: seq<Byte>, slots: seq<Slot>, flags: seq<bool>)
    requires |flags| == |slots| && Laid(file, slots)
    ensures var kept := Pick(slots, flags);
            && Copyable(file, kept, 0)
            && Compaction(file, kept, Gather(file, kept), Pack(kept, 0))
            && Laid(Gather(file, kept), Pack(kept, 0))
  {
    PickStaysLaid(file, slots, flags, |slots|);
    LaidIsCopyable(file, Pick(slots, flags), 0);
    GatherIsCompaction(file, Pick(slots, flags));
  }

  class PayloadStorage {
    var file: seq<Byte>                       // the open file
    var replacement: Option<seq<Byte>>        // put in its place since it was opened
    var handles: seq<PayloadHandle>

    /** The file is in place, and every handle addresses a payload, in the order of the file. */
    ghost predicate Valid()
      reads this, handles
    {
      replacement == None && Distinct(handles) && Laid(file, Slots(handles))
    }

    constructor (content: seq<Byte>)
      ensures file == content && replacement == None && handles == []
    {
      file, replacement, handles := content, None, [];
    }

    /** `load_payload_bytes()` */
    method LoadPayloadBytes(h: PayloadHandle) returns (r: Result<seq<Byte>, Failure>)
      ensures r == ReadPayload(file, Slot(h.offset, h.size))
    {
      r := ReadPayload(file, Slot(h.offset, h.size));
    }

    /** `save_payload_bytes()`, called by the new handle's `__init__()`.  The bytes are written before
        the check that may fail. */
    method SavePayloadBytes(bytes: seq<Byte>) returns (r: Result<PayloadHandle, Failure>)
      requires bytes != []
      modifies this`file, this`handles
      ensures file == old(file) + bytes
      ensures r.Ok? <==> old(handles) == [] ||
                         var last := old(handles[|handles| - 1]);
                         last.offset + last.size <= |old(file)| && last.size > 0
      ensures r.Err? ==> handles == old(handles)
      ensures r.Ok? ==> fresh(r.value) && r.value.offset == |old(file)| && r.value.size == |bytes|
      ensures r.Ok? ==> handles == old(handles) + [r.value]
    {
      file := file + bytes;
      var offset := |file| - |bytes|;
      if handles != [] {
        var last := handles[|handles| - 1];
        if !(offset >= last.offset + last.size > last.offset) {
          return Err(IntegrityError);
        }
      }
      var h := new PayloadHandle(offset, |bytes|);
      handles := handles + [h];
      r := Ok(h);
    }

    /** Saving a payload to a valid storage never fails: the payload can be loaded, and so can all the
        payloads saved before, from the places they had. */
    method Save(payload: seq<Byte>) returns (h: PayloadHandle)
      requires Valid() && Prefixed(payload)
      modifies this`file, this`handles
      ensures Valid() && fresh(h) && handles == old(handles) + [h]
      ensures file == old(file) + payload
      ensures ReadPayload(file, Slot(h.offset, h.size)) == Ok(payload)
      ensures forall i :: 0 <= i < |old(handles)| ==>
                var g := old(handles)[i];
                ReadPayload(file, Slot(g.offset, g.size)) == ReadPayload(old(file), Slot(g.offset, g.size))
    {
      ghost var before, slots := file, Slots(handles);
      if handles != [] {
        assert ReadPayload(before, slots[|slots| - 1]).Ok?;
      }
      SaveKeepsLaid(before, slots, payload);
      var r := SavePayloadBytes(payload);
      h := r.value;
      assert Slots(handles) == slots + [Slot(|before|, |payload|)];
      forall i | 0 <= i < |slots|
        ensures ReadPayload(file, slots[i]) == ReadPayload(before, slots[i])
      {
        GrowthKeepsPayloads(before, payload, slots[i]);
      }
    }

    /** `shrink_disk_space()`: copies the live payloads to a new file and moves their handles; the other
        handles are forgotten.  `Ok` carries what was written to the new file. */
    method ShrinkDiskSpace(live: set<PayloadHandle>) returns (r: Result<seq<Byte>, Failure>)
      requires Distinct(handles)
      modifies this`handles, handles
      ensures var slots := old(Pick(Slots(handles), Flags(handles, live)));
              && (r.Ok? <==> Copyable(file, slots, 0))
              && (r.Ok? ==> r.value == Gather(file, slots) && Slots(handles) == Pack(slots, 0))
      ensures r.Ok? ==> handles == old(Pick(handles, Flags(handles, live)))
    {
      ghost var slots, flags := Slots(handles), Flags(handles, live);
      var newHandles: seq<PayloadHandle> := [];
      var written: seq<Byte> := [];
      var prevEnd: nat := 0;
      for k := 0 to |handles|
        invariant handles == old(handles)
        invariant newHandles == PickFirst(handles, flags, k)
        invariant Slots(newHandles) == Pack(PickFirst(slots, flags, k), 0)
        invariant Unmoved(handles, k, slots)
        invariant Progress(file, PickFirst(slots, flags, k), written, prevEnd)
      {
        var h := handles[k];
        if h in live {
          CheckOneMore(file, slots, flags, k, written, prevEnd);
          NotYetPicked(handles, flags, k);
          var end := h.offset + h.size;
          var payload := CopyPayload(h, prevEnd, |written|);
          if payload.Err? {
            return Err(payload.error);
          }
          SlotsAppend(newHandles, h);
          prevEnd := end;
          written := written + payload.value;
          newHandles := newHandles + [h];
        }
      }
      handles := newHandles;
      r := Ok(written);
    }

    /** One round of that loop: checks the handle's place, reads its payload, and moves the handle. */
    method CopyPayload(h: PayloadHandle, prevEnd: nat, newOffset: nat) returns (r: Result<seq<Byte>, Failure>)
      modifies h
      ensures var s := old(Slot(h.offset, h.size));
              && (r.Ok? <==> s.offset >= prevEnd && ReadPayload(file, s).Ok?)
              && (r.Ok? ==> r == ReadPayload(file, s) && h.offset == newOffset && h.size == s.size)
    {
      if !(h.offset >= prevEnd) {
        return Err(IntegrityError);
      }
      r := ReadPayload(file, Slot(h.offset, h.size));
      if r.Ok? {
        h.offset := newOffset;
      }
    }

    /** The atomic writer's `with` block ends: the new file takes the place of the open one. */
    method Commit(content: seq<Byte>)
      modifies this`replacement
      ensures replacement == Some(content)
    {
      replacement := Some(content);
    }

    /** `reopen_payload_storage_file()` */
    method ReopenPayloadStorageFile()
      modifies this`file, this`replacement
      ensures replacement == None
      ensures file == if old(replacement).Some? then old(replacement).value else old(file)
    {
      if replacement.Some? {
        file := replacement.value;
        replacement := None;
      }
    }

    /** Shrinking, committing and reopening a valid storage never fails: the live handles are kept in
        their old order, and the file and the offsets are a compaction of what was there. */
    method Shrink(live: set<PayloadHandle>)
      requires Valid()
      modifies this, handles
      ensures Valid()
      ensures handles == old(Pick(handles, Flags(handles, live)))
      ensures forall h :: h in old(handles) ==> (h in handles <==> h in live)
      ensures Compaction(old(file), old(Pick(Slots(handles), Flags(handles, live))), file, Slots(handles))
    {
      ghost var before, slots := file, Pick(Slots(handles), Flags(handles, live));
      CompactionOf(file, Slots(handles), Flags(handles, live));
      PickStaysDistinct(handles, Flags(handles, live), |handles|);
      forall h | h in handles
        ensures h in Pick(handles, Flags(handles, live)) <==> h in live
      {
        KeepsExactlyTheLive(handles, live, h);
      }
      var content := ShrinkDiskSpace(live);
      Commit(content.value);
      ReopenPayloadStorageFile();
      assert file == Gather(before, slots) && Slots(handles) == Pack(slots, 0);
    }
  }

  lemma SaveKeepsLaid(file: seq<Byte>, slots: seq<Slot>, bytes: seq<Byte>)
    requires Laid(file, slots) && Prefixed(bytes)
    ensures Laid(file + bytes, slots + [Slot(|file|, |bytes|)])
    ensures ReadPayload(file + bytes, Slot(|file|, |bytes|)) == Ok(bytes)
  {
    assert Read(file + bytes, Slot(|file|, |bytes|)) == bytes;
    forall i | 0 <= i < |slots|
      ensures ReadPayload(file + bytes, slots[i]).Ok? && slots[i].offset + slots[i].size <= |file|
    {
      GrowthKeepsPayloads(file, bytes, slots[i]);
    }
  }

  lemma {:induction false} PackSizes(slots: seq<Slot>, base: nat)
    ensures TotalSize(Pack(slots, base)) == TotalSize(slots)
  {
    if slots != [] {
      PackSizes(slots[1..], base + slots[0].size);
    }
  }

  lemma {:induction false} PackPrefix(slots: seq<Slot>, base: nat, i: nat)
    requires i <= |slots|
    ensures Pack(slots, base)[..i] == Pack(slots[..i], base)
  {
    if i > 0 {
      PackPrefix(slots[1..], base + slots[0].size, i - 1);
      assert slots[..i][1..] == slots[1..][..i - 1];
    }
  }

  /** Of the first `k` elements, the flagged ones. */
  ghost function PickFirst<T>(xs: seq<T>, flags: seq<bool>, k: nat): seq<T>
    requires k <= |flags| == |xs|
  {
    if k == 0 then []
    else if flags[k - 1] then PickFirst(xs, flags, k - 1) + [xs[k - 1]]
    else PickFirst(xs, flags, k - 1)
  }

  /** The flagged elements, in their order. */
  ghost function Pick<T>(xs: seq<T>, flags: seq<bool>): seq<T>
    requires |flags| == |xs|
  {
    PickFirst(xs, flags, |xs|)
  }

  lemma {:induction false} Picked<T>(xs: seq<T>, flags: seq<bool>, k: nat, j: nat) returns (i: nat)
    requires k <= |flags| == |xs| && j < |PickFirst(xs, flags, k)|
    ensures i < k && flags[i] && xs[i] == PickFirst(xs, flags, k)[j]
  {
    if j == |PickFirst(xs, flags, k - 1)| {
      i := k - 1;
    } else {
      i := Picked(xs, flags, k - 1, j);
    }
  }

  /** Every flagged element is picked. */
  lemma {:induction false} FlaggedIsPicked<T>(xs: seq<T>, flags: seq<bool>, k: nat, i: nat)
    requires i < k <= |flags| == |xs| && flags[i]
    ensures xs[i] in PickFirst(xs, flags, k)
  {
    if i < k - 1 {
      FlaggedIsPicked(xs, flags, k - 1, i);
    }
  }

  lemma {:induction false} PickStaysLaid(file: seq<Byte>, slots: seq<Slot>, flags: seq<bool>, k: nat)
    requires k <= |flags| == |slots| && Laid(file, slots)
    ensures Laid(file, PickFirst(slots, flags, k))
  {
    if k > 0 {
      PickStaysLaid(file, slots, flags, k - 1);
      var before := PickFirst(slots, flags, k - 1);
      forall j | 0 <= j < |before|
        ensures before[j].offset + before[j].size <= slots[k - 1].offset
      {
        var i := Picked(slots, flags, k - 1, j);
      }
    }
  }

  lemma {:induction false} PickStaysDistinct(hs: seq<PayloadHandle>, flags: seq<bool>, k: nat)
    requires k <= |flags| == |hs| && Distinct(hs)
    ensures Distinct(PickFirst(hs, flags, k))
  {
    if k > 0 {
      PickStaysDistinct(hs, flags, k - 1);
      NotYetPicked(hs, flags, k - 1);
    }
  }

  ghost function Flags(hs: seq<PayloadHandle>, live: set<PayloadHandle>): (r: seq<bool>)
    ensures |r| == |hs|
  {
    seq(|hs|, i requires 0 <= i < |hs| => hs[i] in live)
  }

  /** The kept handles are exactly the live ones. */
  lemma KeepsExactlyTheLive(hs: seq<PayloadHandle>, live: set<PayloadHandle>, h: PayloadHandle)
    ensures h in Pick(hs, Flags(hs, live)) <==> h in hs && h in live
  {
    var flags := Flags(hs, live);
    if h in Pick(hs, flags) {
      var j :| 0 <= j < |Pick(hs, flags)| && Pick(hs, flags)[j] == h;
      var i := Picked(hs, flags, |hs|, j);
    } else if h in hs && h in live {
      var i :| 0 <= i < |hs| && hs[i] == h;
      FlaggedIsPicked(hs, flags, |hs|, i);
    }
  }
}
