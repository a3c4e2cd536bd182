/**
 * Impulse Tracker files on which a v2 root loses bytes of its skeleton: one compressed sample whose blocks
 * reach over its own header. The planner covers the sample, streaming it saves enough, and so the address
 * written into that header is among the bytes the recipe leaves out.
 */
module ItOverlap {
  import opened Basics
  import opened Cdc
  import opened CdcLaws
  import opened Spans
  import opened Skeleton
  import opened Recipe
  import opened SkeletonLaws
  import opened Sorting
  import opened Plan
  import opened Blocks
  import opened Seek
  import opened FenceCoverage
  import opened Formats
  import opened ItSlots
  import opened ItTables
  import opened Repack
  import opened BuildV2
  import opened ItBake

  // ---- The file ----

  const FRAMES: nat := 98305
  const BLOCK: nat := 65537
  const DATA_AT: nat := 214
  const DATA_END: nat := 262362
  const HEADER_AT: nat := 224

  /** One order, one pattern of one note, and one sample in four blocks of the greatest length. */
  function OverlappingByte(i: nat): byte {
    if i < 0xc0 then
      if i == 0 then 0x49 else if i == 1 then 0x4d else if i == 2 then 0x50 else if i == 3 then 0x4d // IMPM
      else if i == 0x20 || i == 0x24 || i == 0x26 then 1 // an order, a sample, a pattern
      else 0
    else if i < DATA_AT then
      if i == 193 then 224 // the sample header
      else if i == 197 then 201 // the pattern
      else if i == 201 then 5 // its length
      else if i == 203 then 64 // its rows
      else if i == 209 then 0x81 else if i == 210 then 3 else if i == 211 then 60 else if i == 212 then 1 // note, sample 1
      else 0
    else if i == DATA_AT || i == DATA_AT + 1 then 255
    else if i == DATA_AT + BLOCK || i == DATA_AT + BLOCK + 1 then 255
    else if i == DATA_AT + 2 * BLOCK || i == DATA_AT + 2 * BLOCK + 1 then 255
    else if i == DATA_AT + 3 * BLOCK || i == DATA_AT + 3 * BLOCK + 1 then 255
    else if i == HEADER_AT + 0x12 then 9 // present, compressed
    else if i == HEADER_AT + 0x30 || i == HEADER_AT + 0x32 then 1 else if i == HEADER_AT + 0x31 then 0x80 // frames
    else if i == HEADER_AT + 0x48 then 214 // its data
    else 0
  }

  function OverlappingFile(n: nat): (b: Bytes)
    requires n >= DATA_END
    ensures |b| == n && forall i :: 0 <= i < n ==> b[i] == OverlappingByte(i)
  {
    seq(n, i requires 0 <= i < n => OverlappingByte(i))
  }

  const OVERLAPPING_SLOT := Slot(1, 214, 98305, 8, 1, true, 224, 262148)

  lemma HeaderReads(n: nat)
    requires n >= DATA_END
    ensures var b := OverlappingFile(n);
      && IsIt(b) && SampleCount(b) == 1 && OrdNum(b) == 1 && InsNum(b) == 0 && PointerTable(b) == 193
      && U32le(b, 193) == 224 && U32le(b, 197) == 201 && b[192] == 0
  {
    ImpulseMagic(OverlappingFile(n));
    hide OverlappingFile, IsIt;
  }

  lemma PatternReads(n: nat)
    requires n >= DATA_END
    ensures var b := OverlappingFile(n);
      && U16le(b, 201) == 5 && U16le(b, 203) == 64
      && b[209] == 0x81 && b[210] == 3 && b[211] == 60 && b[212] == 1 && b[213] == 0
  {
    hide OverlappingFile;
  }

  lemma SampleReads(n: nat)
    requires n >= DATA_END
    ensures var b := OverlappingFile(n);
      b[HEADER_AT + 0x12] == 9 && U32le(b, HEADER_AT + 0x30) == FRAMES && U32le(b, HEADER_AT + 0x48) == DATA_AT
  {
    hide OverlappingFile;
  }

  lemma BlockReads(n: nat)
    requires n >= DATA_END
    ensures var b := OverlappingFile(n);
      && U16le(b, DATA_AT) == 65535 && U16le(b, DATA_AT + BLOCK) == 65535
      && U16le(b, DATA_AT + 2 * BLOCK) == 65535 && U16le(b, DATA_AT + 3 * BLOCK) == 65535
  {
    hide OverlappingFile;
  }

  // ---- What the locator finds ----

  lemma BlocksReach(n: nat)
    requires n >= DATA_END
    ensures ChannelsEnd(OverlappingFile(n), DATA_AT, FRAMES, 0x8000, 1) == Some(DATA_END)
  {
    BlockReads(n);
    var b := OverlappingFile(n);
    hide U16le, OverlappingFile;
    assert BlocksEnd(b, DATA_END, 0, 0x8000) == Some(DATA_END);
    assert BlocksEnd(b, DATA_AT + 3 * BLOCK, 1, 0x8000) == Some(DATA_END);
    assert BlocksEnd(b, DATA_AT + 2 * BLOCK, 32769, 0x8000) == Some(DATA_END);
    assert BlocksEnd(b, DATA_AT + BLOCK, 65537, 0x8000) == Some(DATA_END);
    assert BlocksEnd(b, DATA_AT, FRAMES, 0x8000) == Some(DATA_END);
    assert ChannelsEnd(b, DATA_AT, FRAMES, 0x8000, 0) == Some(DATA_AT);
  }

  lemma OverlappingFileHasSlot(n: nat)
    requires n >= DATA_END
    ensures ItSlot(OverlappingFile(n), 0) == Some(OVERLAPPING_SLOT)
  {
    hide U16le, U32le, PointerTable, SampleCount, OverlappingFile, OverlappingByte, ChannelsEnd, IsIt;
    HeaderReads(n);
    SampleReads(n);
    BlocksReach(n);
  }

  lemma OverlappingFileSlots(n: nat)
    requires n >= DATA_END
    ensures FileSlots(OverlappingFile(n)) == [OVERLAPPING_SLOT]
  {
    hide ItSlot, OverlappingFile, OverlappingByte, IsIt, PointerTable;
    var b := OverlappingFile(n);
    OverlappingFileHasSlot(n);
    HeaderReads(n);
    hide SampleCount;
    assert SlotsUpTo(b, 0) == [] && SlotsUpTo(b, 1) == [OVERLAPPING_SLOT];
    assert [OVERLAPPING_SLOT][..0] == [] && Fits(OVERLAPPING_SLOT, n);
    assert Fitting([OVERLAPPING_SLOT][..0], n) == [];
  }

  // ---- What the planner plays ----

  lemma OneEvent(n: nat)
    requires n >= DATA_END
    ensures PatternAt(OverlappingFile(n), 201) == Packed(64, [Ev(0, 0, 60, 1, 0, 0)])
  {
    PatternReads(n);
    hide U16le, OverlappingFile, OverlappingByte;
    var b := OverlappingFile(n);
    var mem := FreshMemory();
    var c := CellAt(b, 209, 0, mem);
    assert c.next == 213 && c.ev == Ev(0, 0, 60, 1, 0, 0);
    hide CellAt;
    EventsStep(b, 214, 64, 209, 0, mem);
    EventsStep(b, 214, 64, 213, 0, c.mem);
    NoEvents(b, 214, 64, 214, 1, c.mem);
  }

  lemma HasIts(n: nat)
    requires n >= DATA_END
    ensures var b := OverlappingFile(n);
      && HasHeader(b) && HeaderOf(b).orders == [0] && !HeaderOf(b).useInstruments
      && HeaderOf(b).smpNum == 1 && HeaderOf(b).smpBase == 193 && HeaderOf(b).patBase == 197
  {
    HeaderReads(n);
    hide U32le, OverlappingFile, OverlappingByte, IsIt, OrOther;
    var b := OverlappingFile(n);
    assert b[192..193] == [b[192]];
  }

  lemma SampleSongOffset(n: nat)
    requires n >= DATA_END && HasHeader(OverlappingFile(n))
    ensures ItModel(OverlappingFile(n)).offsetOf(0) == DATA_AT
  {
    HasIts(n);
    HeaderReads(n);
    SampleReads(n);
    hide U32le, OverlappingFile, OverlappingByte, IsIt, HeaderOf, HasHeader, OrdersTo;
  }

  /** Order 0 plays sample 0 on channel 0 from its first event on. */
  lemma SampleSounds(n: nat)
    requires n >= DATA_END && HasHeader(OverlappingFile(n))
    ensures var m := ItModel(OverlappingFile(n));
      && |m.orderPats| == 1 && m.orderPats[0].order == 0 && |EventsAt(m, 0)| == 1
      && Sounding(Played(m, 0, 1), 0) == Some(0)
  {
    HasIts(n);
    HeaderReads(n);
    OneEvent(n);
    hide U32le, OverlappingFile, OverlappingByte, IsIt, HeaderOf, HasHeader, PatternAt;
    var b := OverlappingFile(n);
    var h := HeaderOf(b);
    assert OrdersTo(h, 0) == [] && OrdersTo(h, 1) == [OrderPat(0, 0)];
    assert EventsAt(ItModel(b), 0) == SimEvents(b, h, PackedAt(b, h, 0).events);
    OneNote(b, h);
    hide SimEvents, SimOf, ItModel;
    PlayedOnce(ItModel(b));
  }

  lemma OneNote(b: Bytes, h: ItHeader)
    requires !h.useInstruments
    ensures SimEvents(b, h, [Ev(0, 0, 60, 1, 0, 0)]) == [SimEvent(0, 0, 0, true, false, 0, 0)]
  {
  }

  lemma PlayedOnce(m: SimModel)
    requires |m.orderPats| == 1 && EventsAt(m, 0) == [SimEvent(0, 0, 0, true, false, 0, 0)]
    ensures Sounding(Played(m, 0, 1), 0) == Some(0)
  {
    hide EventsAt;
    var note := SimEvent(0, 0, 0, true, false, 0, 0);
    assert Played(m, 0, 1) == [note];
    assert LastNamed([note], 0) == 0;
  }

  // ---- What the builder streams ----

  /** PCM of the slot's decoded length, whatever it is. */
  predicate DumpsSlot(d: Dump) {
    d.index == 1 && |d.data| == FRAMES
  }

  lemma RequiredIsCovered(plan: Plan, order: nat, s: nat)
    requires s in RequiredAt(plan, order)
    ensures s in Covers(plan)
  {
    hide SortBy, Floor;
    SortByKeepsMembers(plan.checkpoints, ByOrder());
    var cps := SortBy(plan.checkpoints, ByOrder());
    var k :| 0 <= k < |cps| && s in cps[k].samples;
    assert cps[k] in plan.checkpoints;
  }

  lemma OneCandidate(d: Dump)
    requires DumpsSlot(d)
    ensures Candidates([OVERLAPPING_SLOT], [d]) == [Candidate(OVERLAPPING_SLOT, d)]
    ensures Registered([Candidate(OVERLAPPING_SLOT, d)]) == [StreamedSlot(DATA_AT, 1)]
  {
    assert DumpFor([d], 1) == Some(d);
    assert [OVERLAPPING_SLOT][..0] == [] && Candidates([], [d]) == [];
  }

  /** The plan covers the slot, so it is chosen. */
  lemma SlotIsChosen(n: nat, d: Dump, t: SeekTables)
    requires n >= DATA_END && HasHeader(OverlappingFile(n)) && DumpsSlot(d)
    requires ModelOk(ItModel(OverlappingFile(n))) && TablesOk(ItModel(OverlappingFile(n)), t)
    ensures ChosenFor([OVERLAPPING_SLOT], [d], Some(t), false) == [Candidate(OVERLAPPING_SLOT, d)]
  {
    hide OverlappingFile, ModelOk, TablesOk, ItModel, Sounding, Played, EventsAt, PlanOf, RequiredAt, HasHeader, Candidates, LastAtOffset, DistinctIndices;
    var c := Candidate(OVERLAPPING_SLOT, d);
    OneCandidate(d);
    SampleSounds(n);
    SampleSongOffset(n);
    AloneAtOffset();
    NextIsWithinReach(1, 0);
    SlotCoveredIffLastAtOffset(ItModel(OverlappingFile(n)), t, [StreamedSlot(DATA_AT, 1)], 0, 0, 1, 0, 0, 0);
    RequiredIsCovered(PlanOf(Some(t), [StreamedSlot(DATA_AT, 1)]), 0, 1);
    OneChosen(c, Covers(PlanOf(Some(t), [StreamedSlot(DATA_AT, 1)])));
  }

  lemma AloneAtOffset()
    ensures DistinctIndices([StreamedSlot(DATA_AT, 1)]) && LastAtOffset([StreamedSlot(DATA_AT, 1)], 0)
  {
  }

  lemma OneChosen(c: Candidate, covered: set<nat>)
    requires c.slot.index in covered
    ensures Chosen([c], covered, false) == [c]
  {
    assert [c][..0] == [] && Chosen([], covered, false) == [];
  }

  // ---- What streaming it saves ----

  lemma SpansCover(slots: seq<Slot>, len: nat, i: int)
    requires slots == [OVERLAPPING_SLOT] && (DATA_AT <= i < DATA_END || len <= i < len + FRAMES)
    ensures Covered(ZeroSpans(slots, len), i)
  {
    SlotSpansStep(slots, true, i);
    CoveredAppend(SlotSpans(slots, false), SlotSpans(slots, true), i);
    var tail := [Span(len, len + FRAMES)];
    assert Extra(slots) == FRAMES;
    assert len <= i < len + FRAMES ==> Covered(tail, i) by {
      assert tail[0] == Span(len, len + FRAMES);
    }
    CoveredAppend(SlotSpans(slots, false) + SlotSpans(slots, true), tail, i);
  }

  lemma {:induction false} CountGrows(spans: seq<Span>, lo: nat, hi: nat)
    requires lo <= hi
    ensures CoveredCount(spans, lo) <= CoveredCount(spans, hi)
    decreases hi - lo
  {
    if lo < hi {
      CountGrows(spans, lo, hi - 1);
    }
  }

  /** The recipe transfers at most what lies outside the sample's blocks. */
  lemma RecipeIsShort(n: nat, skel: Bytes, cdc: CdcConfig, r: Recipe)
    requires n >= DATA_END && cdc.max > 0 && |skel| == n + FRAMES
    requires RecipeFor(skel, ZeroSpans([OVERLAPPING_SLOT], n), cdc, r)
    ensures |Concat(r.chunks)| <= n - (DATA_END - DATA_AT)
  {
    hide RecipeFor, CoveredCount, ZeroSpans;
    var spans := ZeroSpans([OVERLAPPING_SLOT], n);
    RecipeTransfers(skel, spans, cdc, r);
    forall i | DATA_AT <= i < DATA_END || n <= i < n + FRAMES
      ensures Covered(spans, i)
    {
      SpansCover([OVERLAPPING_SLOT], n, i);
    }
    CountOver(spans, DATA_AT, DATA_END, true);
    CountGrows(spans, DATA_END, n);
    CountOver(spans, n, n + FRAMES, true);
  }

  lemma WarmIsLight(r: Recipe, c: Candidate, required: set<nat>, cdc: CdcConfig)
    requires cdc.max > 0
    ensures Weight(WarmChunks(r, [c], required, cdc)) <= |Concat(r.chunks)| + |c.dump.data|
  {
    hide Weight, Chunks, Concat;
    var dumped := if c.slot.index in required then Chunks(c.dump.data, cdc) else [];
    WeightOfList(r.chunks, set b | b in dumped);
    WeightOfList(dumped, {});
    assert (set b | b in dumped) + {} == set b | b in dumped;
    NothingWeighs(map[]);
    ChunksConcat(c.dump.data, cdc);
    ConcatNone();
    assert WarmChunks(r, [c], required, cdc) == (set b | b in r.chunks) + set b | b in dumped by {
      assert [c][0] == c;
    }
  }

  lemma ConcatNone()
    ensures |Concat([])| == 0
  {
  }

  lemma SavesEnough(n: nat, d: Dump, plan: Plan, cdc: CdcConfig)
    requires n >= DATA_END && DumpsSlot(d) && cdc.max > 0
    ensures !SavesTooLittle(OverlappingFile(n), [Candidate(OVERLAPPING_SLOT, d)], plan, cdc)
  {
    hide OverlappingFile, RecipeFor, SkeletonOf, ZeroSpans, WarmChunks, Weight, RequiredAt;
    var data, chosen := OverlappingFile(n), [Candidate(OVERLAPPING_SLOT, d)];
    forall r: Recipe | SkeletonRecipeIs(data, chosen, cdc, r)
      ensures Saving(data, chosen, plan, cdc, r) >= COMPRESSED_STREAM_MIN_SAVING
    {
      assert ChosenSlots(chosen) == [OVERLAPPING_SLOT];
      assert Extra([OVERLAPPING_SLOT]) == FRAMES;
      RecipeIsShort(n, SkeletonOf(data, [OVERLAPPING_SLOT]), cdc, r);
      WarmIsLight(r, chosen[0], RequiredAt(plan, 0), cdc);
    }
  }

  // ---- What is lost ----

  lemma NonzeroByte(n: nat) returns (k: nat)
    requires 0 < n < 0x1_0000_0000
    ensures k < 4 && CursorByte(n, k) != 0
  {
    k := if n % 256 != 0 then 0 else if n / 0x100 % 256 != 0 then 1 else if n / 0x10000 % 256 != 0 then 2 else 3;
  }

  /** The address written into the header is not all zero, and lies in a zero span. */
  lemma AddressIsLost(n: nat) returns (i: nat)
    requires DATA_END <= n < 0x1_0000_0000
    ensures var slots := [OVERLAPPING_SLOT];
      && i < n && HeaderAt(slots, i) && Covered(ZeroSpans(slots, n), i)
      && !EndsZero(OverlappingFile(n), slots, slots, i, false)
  {
    hide OverlappingFile, ZeroSpans;
    var slots := [OVERLAPPING_SLOT];
    var k := NonzeroByte(n);
    i := HEADER_AT + 0x48 + k;
    assert slots[..0] == [] && slots[0] == OVERLAPPING_SLOT;
    assert HeaderByte(slots[0].headerOffset, i);
    SpansCover(slots, n, i);
    assert Extra(slots[..|slots| - 1]) == 0;
  }

  /**
   * For every size from 262362 bytes up and any PCM of the sample's length: the builder streams the
   * compressed sample, and what a client assembles from the root is not the skeleton that was built.
   */
  lemma HeaderInSpanIsLost(f: Foreign, n: nat, d: Dump, cdc: CdcConfig, tables: Option<SeekTables>,
                           chosen: seq<Candidate>, b: BuiltV2)
    requires DATA_END <= n < 0x1_0000_0000 && DumpsSlot(d) && cdc.max > 0
    requires IsItV2(f, OverlappingFile(n), [d], cdc, tables, chosen, b)
    ensures IsIt(OverlappingFile(n)) && FileSlots(OverlappingFile(n)) == [OVERLAPPING_SLOT]
    ensures chosen == [Candidate(OVERLAPPING_SLOT, d)] && AllInFile([OVERLAPPING_SLOT], n)
    ensures Gather(b.store, b.skeletonChunks).Some?
    ensures Assemble(Gather(b.store, b.skeletonChunks).value, b.layout) != Ok(SkeletonOf(OverlappingFile(n), [OVERLAPPING_SLOT]))
  {
    hide OverlappingFile, OverlappingByte, IsIt, FileSlots, HasHeader, ItModel, ModelOk, TablesOk, ChosenFor, SavesTooLittle, PlanFor,
      SamplesAre, SkeletonRecipeIs, Gather, Assemble, SkeletonOf, EndsZero, HeaderAt, ZeroSpans, Covered, Addressed, AllRaw;
    HeaderReads(n);
    HasIts(n);
    OverlappingFileSlots(n);
    FileSlotsAreLocated(OverlappingFile(n));
    SlotIsChosen(n, d, tables.value);
    SavesEnough(n, d, PlanFor([OVERLAPPING_SLOT], [d], tables, [Candidate(OVERLAPPING_SLOT, d)]), cdc);
    assert ChosenSlots(chosen) == [OVERLAPPING_SLOT];
    V2SkeletonIff(f, OverlappingFile(n), b.plan, chosen, cdc, b);
    var i := AddressIsLost(n);
  }
}
