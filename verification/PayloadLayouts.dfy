/** When compaction has nothing to move. */
module PayloadLayouts {
  import opened PayloadStorage
  import opened Options

  /** Where slot `i` would start if nothing lay between it and the one before. */
  function NextFree(slots: seq<Slot>, i: nat): nat
    requires i <= |slots|
  {
    if i == 0 then 0 else slots[i - 1].offset + slots[i - 1].size
  }

  /** No gaps, from the start of the file. */
  predicate Tight(slots: seq<Slot>) {
    forall i :: 0 <= i < |slots| ==> slots[i].offset == NextFree(slots, i)
  }

  /** Does slot `i`, if flagged, lie right behind a flagged one, or at the start? */
  predicate StaysAt(slots: seq<Slot>, flags: seq<bool>, i: nat)
    requires i < |flags| == |slots|
  {
    flags[i] ==> slots[i].offset == NextFree(slots, i) && (i > 0 ==> flags[i - 1])
  }

  /** No unflagged slot and no gap comes before a flagged one. */
  predicate Undisturbed(slots: seq<Slot>, flags: seq<bool>)
    requires |flags| == |slots|
  {
    forall i :: 0 <= i < |slots| ==> StaysAt(slots, flags, i)
  }

  /** No unflagged one before a flagged one. */
  predicate Leading(flags: seq<bool>) {
    forall i :: 0 < i < |flags| && flags[i] ==> flags[i - 1]
  }

  /** Without gaps only the flags matter. */
  lemma UndisturbedWhenTight(slots: seq<Slot>, flags: seq<bool>)
    requires |flags| == |slots| && Tight(slots)
    ensures Undisturbed(slots, flags) <==> Leading(flags)
  {
    if Undisturbed(slots, flags) {
      forall i | 0 < i < |flags| && flags[i]
        ensures flags[i - 1]
      {
        assert StaysAt(slots, flags, i);
      }
    }
  }

  /** Packing leaves the flagged ones of the first `k` slots where they are. */
  ghost predicate InPlace(slots: seq<Slot>, flags: seq<bool>, k: nat)
    requires k <= |flags| == |slots|
  {
    Pack(PickFirst(slots, flags, k), 0) == PickFirst(slots, flags, k)
  }

  lemma PackedNext(slots: seq<Slot>, x: Slot)
    ensures Pack(slots + [x], 0) == slots + [x] <==> Pack(slots, 0) == slots && x.offset == TotalSize(slots)
  {
    var packed := Pack(slots, 0);
    var y := Slot(TotalSize(slots), x.size);
    PackAppend(slots, x, 0);
    assert (packed + [y])[..|packed|] == packed && (slots + [x])[..|slots|] == slots;
    assert (packed + [y])[|packed|] == y && (slots + [x])[|slots|] == x;
  }

  lemma InPlaceNext(slots: seq<Slot>, flags: seq<bool>, k: nat)
    requires k < |flags| == |slots|
    ensures InPlace(slots, flags, k + 1)
            <==> InPlace(slots, flags, k) && (flags[k] ==> slots[k].offset == TotalSize(PickFirst(slots, flags, k)))
  {
    if flags[k] {
      PackedNext(PickFirst(slots, flags, k), slots[k]);
    }
  }

  /** The picked slots fit in before the next one; they reach it only when the last slot is picked. */
  lemma {:induction false} PickedSize(file: seq<Byte>, slots: seq<Slot>, flags: seq<bool>, k: nat)
    requires k <= |flags| == |slots| && Laid(file, slots)
    ensures var size := TotalSize(PickFirst(slots, flags, k));
            && size <= NextFree(slots, k)
            && (k > 0 && !flags[k - 1] ==> size < NextFree(slots, k))
            && (InPlace(slots, flags, k) && (k > 0 ==> flags[k - 1]) ==> size == NextFree(slots, k))
  {
    if k > 0 {
      PickedSize(file, slots, flags, k - 1);
      InPlaceNext(slots, flags, k - 1);
      assert ReadPayload(file, slots[k - 1]).Ok?;
      assert k > 1 ==> slots[k - 2].offset + slots[k - 2].size <= slots[k - 1].offset;
      if flags[k - 1] {
        GatherAppend(file, PickFirst(slots, flags, k - 1), slots[k - 1]);
      }
    }
  }

  /** Behind slots that stay in place, the next one stays exactly when it lies right behind a flagged one. */
  lemma NextStays(file: seq<Byte>, slots: seq<Slot>, flags: seq<bool>, k: nat)
    requires k < |flags| == |slots| && Laid(file, slots)
    ensures InPlace(slots, flags, k + 1) <==> InPlace(slots, flags, k) && StaysAt(slots, flags, k)
  {
    InPlaceNext(slots, flags, k);
    PickedSize(file, slots, flags, k);
    assert k > 0 ==> NextFree(slots, k) <= slots[k].offset;
  }

  lemma {:induction false} InPlaceUpTo(file: seq<Byte>, slots: seq<Slot>, flags: seq<bool>, k: nat)
    requires k <= |flags| == |slots| && Laid(file, slots)
    ensures InPlace(slots, flags, k) <==> forall i :: 0 <= i < k ==> StaysAt(slots, flags, i)
  {
    if k > 0 {
      InPlaceUpTo(file, slots, flags, k - 1);
      NextStays(file, slots, flags, k - 1);
    }
  }

  /** Compaction moves none of the flagged slots if and only if they are undisturbed. */
  lemma InPlaceExactly(file: seq<Byte>, slots: seq<Slot>, flags: seq<bool>)
    requires |flags| == |slots| && Laid(file, slots)
    ensures Pack(Pick(slots, flags), 0) == Pick(slots, flags) <==> Undisturbed(slots, flags)
  {
    InPlaceUpTo(file, slots, flags, |slots|);
  }

  lemma {:induction false} PackTwice(slots: seq<Slot>, base: nat)
    ensures Pack(Pack(slots, base), base) == Pack(slots, base)
  {
    if slots != [] {
      PackTwice(slots[1..], base + slots[0].size);
    }
  }

  lemma TightNext(slots: seq<Slot>, x: Slot)
    ensures Tight(slots + [x]) <==> Tight(slots) && x.offset == NextFree(slots, |slots|)
  {
    var more := slots + [x];
    assert forall i :: 0 <= i < |slots| ==> more[i] == slots[i] && NextFree(more, i) == NextFree(slots, i);
    assert more[|slots|] == x && NextFree(more, |slots|) == NextFree(slots, |slots|);
  }

  lemma {:induction false} TightIsPacked(slots: seq<Slot>)
    ensures Tight(slots) <==> Pack(slots, 0) == slots
    ensures Tight(slots) ==> TotalSize(slots) == NextFree(slots, |slots|)
  {
    if slots != [] {
      var init, x := slots[..|slots| - 1], slots[|slots| - 1];
      assert slots == init + [x];
      TightIsPacked(init);
      PackedNext(init, x);
      TightNext(init, x);
      GatherAppend([], init, x);
    }
  }

  /** What compaction leaves is tight and as long as the file. */
  lemma PackedIsTight(slots: seq<Slot>)
    ensures Tight(Pack(slots, 0)) && NextFree(Pack(slots, 0), |slots|) == TotalSize(slots)
  {
    PackTwice(slots, 0);
    TightIsPacked(Pack(slots, 0));
    PackSizes(slots, 0);
  }

  lemma {:induction false} PickAll<T>(xs: seq<T>, flags: seq<bool>, k: nat)
    requires k <= |flags| == |xs|
    ensures |PickFirst(xs, flags, k)| <= k
    ensures |PickFirst(xs, flags, k)| == k <==> forall i :: 0 <= i < k ==> flags[i]
    ensures |PickFirst(xs, flags, k)| == k ==> PickFirst(xs, flags, k) == xs[..k]
  {
    if k > 0 {
      PickAll(xs, flags, k - 1);
      assert xs[..k] == xs[..k - 1] + [xs[k - 1]];
    }
  }

  lemma PackFirst(slots: seq<Slot>, base: nat)
    requires slots != [] && Pack(slots, base) == slots
    ensures slots[0].offset == base && Pack(slots[1..], base + slots[0].size) == slots[1..]
  {
    assert Pack(slots, base)[1..] == Pack(slots[1..], base + slots[0].size);
  }

  lemma Adjoining(file: seq<Byte>, i: nat, j: nat, k: nat)
    requires i <= j <= k <= |file|
    ensures file[i..j] + file[j..k] == file[i..k]
  {
  }

  /** A tight layout is a copy of the front of its file. */
  lemma {:induction false} GatherTight(file: seq<Byte>, slots: seq<Slot>, base: nat)
    requires forall i :: 0 <= i < |slots| ==> ReadPayload(file, slots[i]).Ok?
    requires Pack(slots, base) == slots && base <= |file|
    ensures base + TotalSize(slots) <= |file|
    ensures Gather(file, slots) == file[base..base + TotalSize(slots)]
    decreases |slots|
  {
    if slots != [] {
      var x, rest := slots[0], slots[1..];
      LaidFits(file, x);
      PackFirst(slots, base);
      GatherTight(file, rest, base + x.size);
      assert Read(file, x) == file[base..base + x.size];
      Adjoining(file, base, base + x.size, base + TotalSize(slots));
    }
  }

  // ---------------------------------------------------------------- packed slots in the unpacked file

  /** Each packed slot reads in the old file what its old slot reads there. */
  ghost predicate StillLoads(file: seq<Byte>, slots: seq<Slot>, flags: seq<bool>)
    requires |flags| == |slots|
  {
    var kept := Pick(slots, flags);
    forall i :: 0 <= i < |kept| ==> ReadPayload(file, Pack(kept, 0)[i]) == ReadPayload(file, kept[i])
  }

  /** All bytes the same but one. */
  function OneDifferent(size: nat, place: nat): seq<Byte> {
    seq(size, i => if i == place then COMPRESSED else PLAIN)
  }

  lemma OneDifferentReads(size: nat, place: nat, s: Slot)
    requires s.size > 0 && s.offset + s.size <= size
    ensures var r := ReadPayload(OneDifferent(size, place), s);
            r.Ok? && r.value[0] == if s.offset == place then COMPRESSED else PLAIN
  {
    assert Read(OneDifferent(size, place), s) == OneDifferent(size, place)[s.offset..s.offset + s.size];
  }

  lemma LaidFits(file: seq<Byte>, s: Slot)
    requires ReadPayload(file, s).Ok?
    ensures s.size > 0 && s.offset + s.size <= |file|
  {
  }

  lemma OneDifferentIsLaid(file: seq<Byte>, slots: seq<Slot>, place: nat)
    requires Laid(file, slots)
    ensures Laid(OneDifferent(|file|, place), slots)
  {
    forall i | 0 <= i < |slots|
      ensures ReadPayload(OneDifferent(|file|, place), slots[i]).Ok?
    {
      LaidFits(file, slots[i]);
      OneDifferentReads(|file|, place, slots[i]);
    }
  }

  /** A slot that is moved reads something else in some file of the same layout. */
  lemma MovedReadsAnother(file: seq<Byte>, slots: seq<Slot>, flags: seq<bool>) returns (f: seq<Byte>)
    requires |flags| == |slots| && Laid(file, slots) && !Undisturbed(slots, flags)
    ensures |f| == |file| && Laid(f, slots) && !StillLoads(f, slots, flags)
  {
    var kept := Pick(slots, flags);
    var packed := Pack(kept, 0);
    InPlaceExactly(file, slots, flags);
    var i :| 0 <= i < |kept| && packed[i] != kept[i];
    PackedAt(kept, 0, i);
    var j := Picked(slots, flags, |slots|, i);
    f := OneDifferent(|file|, kept[i].offset);
    OneDifferentIsLaid(file, slots, kept[i].offset);
    LaidFits(file, slots[j]);
    OneDifferentReads(|file|, kept[i].offset, kept[i]);
    if packed[i].offset + packed[i].size <= |file| {
      OneDifferentReads(|file|, kept[i].offset, packed[i]);
    }
    assert ReadPayload(f, packed[i]) != ReadPayload(f, kept[i]);
  }
}
