/** A module file built and played: tables, slots, root and fence together, with no condition on the file. */
module ModFence {
  import opened Basics
  import opened Cdc
  import opened Plan
  import opened Skeleton
  import opened SkeletonLaws
  import opened Blocks
  import opened Rebuild
  import opened Seek
  import opened ModTables
  import opened Repack
  import opened DesktopRebuild
  import opened BuiltFence
  import opened Formats

  function FileSlots(data: Bytes): seq<Slot>
    requires |data| >= HEADER_BYTES
  {
    SlotsTo(data, SampleStart(data, ModChannels(Tag(data))), 31)
  }

  lemma {:induction false} SlotsAscend(b: Bytes, start: nat, n: nat)
    requires |b| >= HEADER_BYTES && n <= 31
    ensures IndicesAscend(SlotsTo(b, start, n)) && forall x :: x in SlotsTo(b, start, n) ==> x.index <= n
    decreases n
  {
    if n > 0 {
      SlotsAscend(b, start, n - 1);
      var s := SlotsTo(b, start, n - 1);
      assert forall j | 0 <= j < |s| :: s[j] in s;
    }
  }

  /** The slots of a file are what the builder asks for, and where the tables say. */
  lemma FileSlotsFit(data: Bytes)
    requires |data| >= HEADER_BYTES
    ensures AllInFile(FileSlots(data), |data|) && NoneCompressed(FileSlots(data))
    ensures Joined(ModModel(data), FileSlots(data))
  {
    hide SlotsTo, ModChannels, OffsetOf;
    var start := SampleStart(data, ModChannels(Tag(data)));
    LocatorsAgree(data, start);
    SlotsAscend(data, start, 31);
    var slots := FileSlots(data);
    assert forall k | 0 <= k < |slots| :: slots[k] in slots;
  }

  /** They are of 8-bit mono, which both clients write back right and version 4 keeps. */
  lemma {:induction false} FileSlotsAreMono(b: Bytes, start: nat, n: nat)
    requires |b| >= HEADER_BYTES && n <= 31
    ensures forall k :: 0 <= k < |SlotsTo(b, start, n)| ==>
      SlotsTo(b, start, n)[k].bitDepth == 8 && SlotsTo(b, start, n)[k].channels == 1
    decreases n
  {
    if n > 0 {
      FileSlotsAreMono(b, start, n - 1);
    }
  }

  lemma MonoIsSafe(slots: seq<Slot>)
    requires forall k :: 0 <= k < |slots| ==> slots[k].bitDepth == 8 && slots[k].channels == 1
    ensures SafeFor(slots, 4) && SafeFor(slots, 3)
  {
  }

  ghost predicate IsModBake(f: Foreign, x: Bake) {
    |x.data| >= HEADER_BYTES && IsBake(f, x) && x.slots == FileSlots(x.data) && x.model == ModModel(x.data)
  }

  /** In a module file every streamed sample is the last at its offset. */
  lemma StreamedSamplesAreSole(f: Foreign, x: Bake, index: nat)
    requires IsModBake(f, x) && index in Arriving(x.built)
    ensures Streams(x.built.index.samples, index)
  {
    TableLists(f, x);
    PicksAreSlots(x.data, x.slots, x.decoded, x.picks);
    hide IsBake, ModModel, FileSlots, BuiltOk;
    var samples, picks := x.built.index.samples, x.picks;
    var ref :| ref in samples && ref.index == index;
    var j: nat :| j < |samples| && samples[j] == ref;
    forall k | j < k < |samples|
      ensures samples[k].offset != samples[j].offset
    {
      OffsetsDiffer(x.data, picks[j].slot, picks[k].slot);
    }
    assert LastRef(samples, j);
  }

  lemma OffsetsDiffer(data: Bytes, x: Slot, y: Slot)
    requires |data| >= HEADER_BYTES && x in FileSlots(data) && y in FileSlots(data) && x.index < y.index
    ensures x.offset != y.offset
  {
    hide SlotsTo, WalkTo, SampleLength, ModChannels;
    var start := SampleStart(data, ModChannels(Tag(data)));
    LocatorsAgree(data, start);
    SamplesAreDisjoint(data, start, x.index - 1, y.index - 1);
  }

  /**
   * For every module file, any decoded dumps and any root built from them: a sample that can sound within
   * reach of an order, if the root streams it, is required by the root's plan at that order.
   */
  lemma BuiltModHasNoGap(f: Foreign, x: Bake, order: nat, p: nat, p2: nat, k: nat, ch: nat, s: nat)
    requires IsModBake(f, x) && SoundsFrom(x.model, order, p, p2, k, ch, s) && s + 1 in Arriving(x.built)
    ensures s + 1 in RequiredAt(x.built.index.plan, order)
  {
    StreamedSamplesAreSole(f, x, s + 1);
    hide IsBake, SoundsFrom, RequiredAt, LastRef;
    var samples := x.built.index.samples;
    var j: nat :| j < |samples| && samples[j].index == s + 1 && LastRef(samples, j);
    BuiltCoversIff(f, x, order, p, p2, k, ch, s, j);
  }

  // ---- From file to root ----

  /** `buildDagV3` / `buildDagV4` of a module file: locate, simulate, build. Both clients give it back. */
  method BuildModule(f: Foreign, data: Bytes, decoded: seq<Dump>, cdc: CdcConfig, version: nat)
    returns (built: Built, ghost x: Bake)
    requires Lawful(f) && DetectFormat(data) == Some(Mod) && cdc.max > 0 && (version == 3 || version == 4)
    requires ExactTimes(f, TimingMap(ModModel(data)))
    ensures IsModBake(f, x) && x.data == data && x.decoded == decoded && x.version == version && x.built == built
    ensures RebuildFrom(f, built.store, built.root, Web, version) == Some(data)
    ensures RebuildFrom(f, built.store, built.root, Desktop, version) == Some(data)
  {
    hide Lawful, PicksFor, BuiltOk, TablesOk, ModModel, SlotsTo, RebuildFrom, AllKept, AllWriteRight, AllWhole, AllSplitSafe, Joined;
    var slots := ModSlots(data);
    var tables := ModSeekTables(data);
    FileSlotsFit(data);
    TablesTimed(ModModel(data), tables.value);
    var r;
    ghost var picks;
    r, picks := BuildDag(f, data, slots, decoded, cdc, tables, version);
    built := r.value;
    x := Bake(data, slots, ModModel(data), tables.value, decoded, picks, version, built);
    FileSlotsAreMono(data, SampleStart(data, ModChannels(Tag(data))), 31);
    MonoIsSafe(slots);
    WholeSlotsAreKept(f, data, slots, decoded, picks);
    DesktopDenotes(f, data, slots, decoded, picks, tables, version, built);
  }
}
