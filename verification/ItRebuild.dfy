/**
 * The desktop rebuild of Impulse Tracker files. Their locator reports a partial stereo frame for one kind of
 * sample only, one cut short by the end of the file; such a sample can be lost, and here is a file that loses it.
 */
module ItRebuild {
  import opened Basics
  import opened Skeleton
  import opened SkeletonLaws
  import opened SampleTransform
  import opened Formats
  import opened ItSlots
  import opened Repack
  import opened Rebuild
  import opened DesktopRebuild

  // ---- Only a sample cut short is unsafe ----

  /** A raw sample of an unsafe shape runs to the end of the file. */
  lemma UnsafeIsCutShort(b: Bytes, s: Slot)
    requires s in FileSlots(b) && !s.compressed && !SplitSafe(s.length, s.bitDepth, s.channels)
    ensures s.offset + s.length == |b|
  {
    hide ItSlot, SplitSafe, SlotsUpTo, Fitting;
    FittingAreItSlots(b, SampleCount(b), s);
    var i: nat :| i < SampleCount(b) && ItSlot(b, i) == Some(s);
    RawSlotIsWhole(b, i);
  }

  lemma RawSlotIsWhole(b: Bytes, i: nat)
    requires ItSlot(b, i).Some? && !ItSlot(b, i).value.compressed
    ensures var s := ItSlot(b, i).value; s.offset + s.length == |b| || SplitSafe(s.length, s.bitDepth, s.channels)
  {
    hide U32le, Bit, ChannelsEnd;
  }

  lemma {:induction false} FittingAreItSlots(b: Bytes, n: nat, s: Slot)
    requires s in Fitting(SlotsUpTo(b, n), |b|)
    ensures exists i: nat :: i < n && ItSlot(b, i) == Some(s)
    decreases n
  {
    hide ItSlot;
    if n > 0 {
      var slots, before := SlotsUpTo(b, n), SlotsUpTo(b, n - 1);
      if ItSlot(b, n - 1).Some? {
        assert slots[..|slots| - 1] == before;
        if s in Fitting(before, |b|) {
          FittingAreItSlots(b, n - 1, s);
        }
      } else {
        assert slots == before;
        FittingAreItSlots(b, n - 1, s);
      }
    }
  }

  // ---- What the locator reads ----

  /** The bytes that say what kind of file it is and where its samples lie. */
  ghost predicate HeaderAt(b: Bytes, i: nat) {
    || i < 0x2c
    || PointerTable(b) <= i < PointerTable(b) + 4 * SampleCount(b)
    || exists k: nat :: k < SampleCount(b) && InHeader(b, k, i)
  }

  ghost predicate InHeader(b: Bytes, k: nat, i: nat) {
    var so := U32le(b, PointerTable(b) + k * 4);
    so <= i < so + 0x50
  }

  ghost predicate SameHeaders(b: Bytes, b2: Bytes) {
    |b| == |b2| && forall i: nat :: i < |b| && HeaderAt(b, i) ==> b2[i] == b[i]
  }

  lemma SameRead(b: Bytes, b2: Bytes, o: nat)
    requires |b| == |b2| && forall i: nat :: o <= i < o + 4 && i < |b| ==> b2[i] == b[i]
    ensures U32le(b2, o) == U32le(b, o) && U16le(b2, o) == U16le(b, o)
  {
  }

  lemma SameCounts(b: Bytes, b2: Bytes)
    requires SameHeaders(b, b2)
    ensures PointerTable(b2) == PointerTable(b) && SampleCount(b2) == SampleCount(b)
    ensures IsIt(b2) == IsIt(b)
  {
    assert forall i: nat :: i < 0x2c && i < |b| ==> b2[i] == b[i] by {
      assert forall i: nat :: i < 0x2c ==> HeaderAt(b, i);
    }
    SameRead(b, b2, 0x20);
    SameRead(b, b2, 0x22);
    SameRead(b, b2, 0x24);
    SameRead(b, b2, 0x28);
    SameMagic(b, b2, "MO3");
    SameMagic(b, b2, "tpm.");
    SameMagic(b, b2, "IMPM");
  }

  lemma SameMagic(b: Bytes, b2: Bytes, magic: string)
    requires |b| == |b2| && |magic| <= 4 && forall i: nat :: i < 4 && i < |b| ==> b2[i] == b[i]
    ensures Has(b2, 0, magic) == Has(b, 0, magic)
  {
  }

  lemma SameSlot(b: Bytes, b2: Bytes, i: nat)
    requires SameHeaders(b, b2) && i < SampleCount(b)
    requires ItSlot(b, i).Some? ==> !ItSlot(b, i).value.compressed
    ensures ItSlot(b2, i) == ItSlot(b, i)
  {
    hide U32le, U16le, Bit, ChannelsEnd, PointerTable, SampleCount, Has, DetectFormat;
    SameCounts(b, b2);
    var at := PointerTable(b) + i * 4;
    SameRead(b, b2, at);
    var so := U32le(b, at);
    if so + 0x50 <= |b| {
      SameHeaderBytes(b, b2, i);
      SameRead(b, b2, so + 0x30);
      SameRead(b, b2, so + 0x48);
    }
  }

  lemma SameHeaderBytes(b: Bytes, b2: Bytes, i: nat)
    requires SameHeaders(b, b2) && i < SampleCount(b)
    ensures var so := U32le(b, PointerTable(b) + i * 4);
      forall j: nat :: so <= j < so + 0x50 && j < |b| ==> b2[j] == b[j]
  {
    hide U32le, PointerTable, SampleCount;
    var so := U32le(b, PointerTable(b) + i * 4);
    forall j: nat | so <= j < so + 0x50 && j < |b|
      ensures b2[j] == b[j]
    {
      assert InHeader(b, i, j);
    }
  }

  /** Headers determine the slots, when none is compressed. */
  lemma {:induction false} SameSlots(b: Bytes, b2: Bytes, n: nat)
    requires SameHeaders(b, b2) && n <= SampleCount(b)
    requires forall i: nat :: i < n && ItSlot(b, i).Some? ==> !ItSlot(b, i).value.compressed
    ensures SlotsUpTo(b2, n) == SlotsUpTo(b, n)
    decreases n
  {
    hide ItSlot, SameHeaders;
    if n > 0 {
      SameSlots(b, b2, n - 1);
      SameSlot(b, b2, n - 1);
    }
  }

  // ---- The exact condition ----

  /** No header of a compressed sample, whether or not the sample fits the file. */
  ghost predicate NoneCompressedIn(b: Bytes) {
    forall i: nat :: i < SampleCount(b) && ItSlot(b, i).Some? ==> !ItSlot(b, i).value.compressed
  }

  /** No header lies among the bytes of an unsafe sample. */
  ghost predicate HeadersApart(b: Bytes) {
    forall s, i: nat :: s in FileSlots(b) && !SplitSafe(s.length, s.bitDepth, s.channels) && s.offset <= i < s.offset + s.length
      ==> !HeaderAt(b, i)
  }

  lemma RawSlotsAreOwn(b: Bytes)
    ensures AllInFile(FileSlots(b), |b|) && OwnIndices(FileSlots(b))
  {
    FileSlotsAreLocated(b);
  }

  /** The desktop client gives back every file that has the slots of `b`. */
  ghost predicate GivesBackLike(b: Bytes)
    requires AllInFile(FileSlots(b), |b|) && NoneCompressed(FileSlots(b))
  {
    forall b2: Bytes :: |b2| == |b| && IsIt(b2) && FileSlots(b2) == FileSlots(b) ==> GivesBack(b2, FileSlots(b))
  }

  /**
   * For every Impulse Tracker file of raw samples: the desktop client gives back the files with these
   * slots, whatever was dumped, when no stereo sample cut short by the end of the file is of an unsafe
   * shape; and then only, unless a header lies among the bytes of such a sample.
   */
  lemma ItRebuildsIff(b: Bytes)
    requires IsIt(b) && NoneCompressed(FileSlots(b))
    ensures AllInFile(FileSlots(b), |b|)
    ensures AllSplitSafe(FileSlots(b)) ==> GivesBackLike(b)
    ensures NoneCompressedIn(b) && HeadersApart(b) ==> (AllSplitSafe(FileSlots(b)) <==> GivesBackLike(b))
  {
    hide IsIt, FileSlots, SplitSafe, HeaderAt, OwnIndices, Deint, PicksFor, WrittenBack, Blanked, GivesBack;
    RawSlotsAreOwn(b);
    var slots := FileSlots(b);
    if AllSplitSafe(slots) {
      forall b2: Bytes | |b2| == |b| && IsIt(b2) && FileSlots(b2) == slots
        ensures GivesBack(b2, slots)
      {
        SafeSlotsGiveBack(b2, slots);
      }
    } else if NoneCompressedIn(b) && HeadersApart(b) {
      var k :| 0 <= k < |slots| && !SplitSafe(slots[k].length, slots[k].bitDepth, slots[k].channels);
      var b2, dump, p := UnsafeSlotLoses(b, slots, k);
      SlotsKept(b, b2);
      NotGivenBack(b2, slots, dump, p);
    }
  }

  lemma NotGivenBack(data: Bytes, slots: seq<Slot>, dump: Dump, p: Pick)
    requires AllInFile(slots, |data|) && NoneCompressed(slots)
    requires PicksFor(data, slots, [dump], [p]) && PicksFit(|data|, [p])
    requires WrittenBack(Desktop, Blanked(data, [p]), [p]) != data
    ensures !GivesBack(data, slots)
  {
    hide PicksFor, WrittenBack, Blanked;
  }

  lemma SlotsKept(b: Bytes, b2: Bytes)
    requires NoneCompressedIn(b) && SameHeaders(b, b2)
    ensures FileSlots(b2) == FileSlots(b) && IsIt(b2) == IsIt(b)
  {
    hide ItSlot, SlotsUpTo, Fitting, HeaderAt;
    SameCounts(b, b2);
    SameSlots(b, b2, SampleCount(b));
  }

  // ---- A file that is lost ----

  function CutShortByte(i: nat): byte {
    if i == 0 then 0x49 else if i == 1 then 0x4d else if i == 2 then 0x50 else if i == 3 then 0x4d // IMPM
    else if i == 0x24 then 1 // one sample
    else if i == 0xc0 then 0xd0 // its header
    else if i == 0xd0 + 0x12 then 5 // present, stereo
    else if i == 0xd0 + 0x30 then 2 // two frames
    else if i == 0xd0 + 0x48 then 0x20 else if i == 0xd0 + 0x49 then 1 // its data, at 288
    else if i == 288 then 1 else if i == 289 then 3
    else 0
  }

  /** One stereo sample of 8 bits: header at 0xd0, two frames from 288 on, and one byte missing at the end. */
  function CutShortFile(): (b: Bytes)
    ensures |b| == 291 && forall i :: 0 <= i < 291 ==> b[i] == CutShortByte(i)
  {
    seq(291, i requires 0 <= i < 291 => CutShortByte(i))
  }

  const CUT_SLOT := Slot(1, 288, 3, 8, 2, false, 0, 0)

  lemma CutShortReads()
    ensures var b := CutShortFile();
      && SampleCount(b) == 1 && PointerTable(b) == 0xc0 && b[0xd0 + 0x12] == 5
      && U32le(b, 0xc0) == 0xd0 && U32le(b, 0xd0 + 0x30) == 2 && U32le(b, 0xd0 + 0x48) == 288
      && IsIt(b) && b[288..291] == [1, 3, 0]
  {
    hide CutShortFile, IsIt;
    ImpulseMagic(CutShortFile());
  }

  lemma CutShortSlots()
    ensures FileSlots(CutShortFile()) == [CUT_SLOT]
  {
    hide U16le, U32le, PointerTable, CutShortFile, CutShortByte, IsIt;
    var b := CutShortFile();
    CutShortReads();
    assert ItSlot(b, 0) == Some(CUT_SLOT);
    hide ItSlot;
    assert SlotsUpTo(b, 0) == [] && SlotsUpTo(b, 1) == [CUT_SLOT];
    assert [CUT_SLOT][..0] == [] && Fits(CUT_SLOT, 291);
    assert Fitting([CUT_SLOT][..0], 291) == [];
  }

  /**
   * The dump 1 2 3 for the file's last bytes 1 3 0: the builder picks the slot with mask 4, and the desktop
   * client writes 1 2 3.
   */
  lemma DesktopLosesThreeBytes()
    ensures var b, p := CutShortFile(), Pick(CUT_SLOT, Dump(1, 1, [1, 2, 3]), 4);
      && IsIt(b) && FileSlots(b) == [CUT_SLOT] && AllInFile([CUT_SLOT], 291) && NoneCompressed([CUT_SLOT])
      && PicksFor(b, [CUT_SLOT], [p.dump], [p]) && PicksFit(291, [p])
      && b[288..] == [1, 3, 0] && WrittenBack(Desktop, Blanked(b, [p]), [p])[288..] == [1, 2, 3]
  {
    CutShortReads();
    CutShortSlots();
    hide CutShortFile, CutShortByte, SampleCount, PointerTable, U32le, IsIt, FileSlots, PicksFor, WrittenBack, Blanked;
    ThreeBytesLost(CutShortFile(), CUT_SLOT);
  }
}
