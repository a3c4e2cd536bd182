/** An Impulse Tracker file built and played: locator, tables, root and fence together. */
module ItBake {
  import opened Basics
  import opened Cdc
  import opened Plan
  import opened Skeleton
  import opened SkeletonLaws
  import opened Blocks
  import opened Rebuild
  import opened Seek
  import opened Formats
  import opened ItSlots
  import opened ItTables
  import opened ItRebuild
  import opened Repack
  import opened DesktopRebuild
  import opened BuiltFence
  import opened FenceCoverage
  import opened BuildV2

  /** Slots in number order, each where the tables put its sample. */
  lemma ItJoined(b: Bytes)
    requires HasHeader(b)
    ensures Joined(ItModel(b), FileSlots(b))
  {
    hide ItSlot, SlotsUpTo, Fitting, ItModel, HasHeader;
    FileSlotsAreLocated(b);
    forall x | x in FileSlots(b)
      ensures x.index > 0 && ItModel(b).offsetOf(x.index - 1) == x.offset
    {
      FittingAreItSlots(b, SampleCount(b), x);
      var i: nat :| i < SampleCount(b) && ItSlot(b, i) == Some(x);
      ItLocatorsAgree(b, i);
    }
  }

  /** A bake of an Impulse Tracker file whose header the planner reads. */
  ghost predicate IsItBake(f: Foreign, x: Bake) {
    HasHeader(x.data) && IsBake(f, x) && x.slots == FileSlots(x.data) && x.model == ItModel(x.data)
  }

  /**
   * `buildDagV3` / `buildDagV4` of an Impulse Tracker file: locate, simulate, build. Files with compressed
   * samples are refused; of the others the web client gives back every version 3 root, and the desktop
   * client those with slots of safe shapes.
   */
  method BuildIt(f: Foreign, data: Bytes, decoded: seq<Dump>, cdc: CdcConfig, version: nat)
    returns (r: Result<Built>, ghost x: Option<Bake>)
    requires Lawful(f) && IsIt(data) && cdc.max > 0 && (version == 3 || version == 4)
    requires HasHeader(data) ==> ExactTimes(f, TimingMap(ItModel(data)))
    ensures r.Err? <==> !NoneCompressed(FileSlots(data))
    ensures r.Ok? && HasHeader(data) ==>
      x.Some? && IsItBake(f, x.value) && x.value.data == data && x.value.decoded == decoded && x.value.built == r.value
    ensures r.Ok? && version == 3 ==> RebuildFrom(f, r.value.store, r.value.root, Web, version) == Some(data)
    ensures r.Ok? && SafeFor(FileSlots(data), version) ==>
      RebuildFrom(f, r.value.store, r.value.root, Desktop, version) == Some(data)
  {
    hide Lawful, PicksFor, BuiltOk, TablesOk, ModelOk, ItModel, HasHeader, FileSlots, RebuildFrom, AllKept, AllWriteRight,
      AllWhole, AllSplitSafe, Joined, NoneCompressed;
    var slots := SampleSlots(data);
    var tables := ItSeekTables(data);
    FileSlotsAreLocated(data);
    if tables.Some? {
      TablesTimed(ItModel(data), tables.value);
      ItJoined(data);
    }
    ghost var picks;
    r, picks := BuildDag(f, data, slots, decoded, cdc, tables, version);
    x := None;
    if r.Ok? {
      if tables.Some? {
        x := Some(Bake(data, slots, ItModel(data), tables.value, decoded, picks, version, r.value));
      }
      DesktopDenotes(f, data, slots, decoded, picks, tables, version, r.value);
    }
  }

  // ---- Version 2 ----

  /** What `buildDagV2` makes of an Impulse Tracker file: its slots and tables, and the root built from them. */
  ghost predicate IsItV2(f: Foreign, data: Bytes, decoded: seq<Dump>, cdc: CdcConfig, tables: Option<SeekTables>,
                         chosen: seq<Candidate>, b: BuiltV2)
    requires cdc.max > 0
  {
    var slots := FileSlots(data);
    var all := ChosenFor(slots, decoded, tables, false);
    && (tables.Some? <==> HasHeader(data))
    && (tables.Some? ==> ModelOk(ItModel(data)) && TablesOk(ItModel(data), tables.value))
    && chosen == ChosenFor(slots, decoded, tables, SavesTooLittle(data, all, PlanFor(slots, decoded, tables, all), cdc))
    && HoldsV2(f, data, PlanFor(slots, decoded, tables, chosen), chosen, cdc, b)
  }

  method BuildItV2(f: Foreign, data: Bytes, decoded: seq<Dump>, cdc: CdcConfig)
    returns (b: BuiltV2, chosen: seq<Candidate>, tables: Option<SeekTables>)
    requires Lawful(f) && IsIt(data) && cdc.max > 0
    ensures IsItV2(f, data, decoded, cdc, tables, chosen, b)
  {
    hide Lawful, FileSlots, ItModel, HasHeader, ModelOk, TablesOk, ChosenFor, PlanFor, SavesTooLittle, HoldsV2;
    var slots := SampleSlots(data);
    tables := ItSeekTables(data);
    FileSlotsAreLocated(data);
    b, chosen := BuildDagV2(f, data, slots, decoded, cdc, tables, false);
  }

  lemma {:induction false} CandidatesAscend(slots: seq<Slot>, decoded: seq<Dump>)
    requires IndicesAscend(slots)
    ensures forall j, k :: 0 <= j < k < |Candidates(slots, decoded)| ==>
      Candidates(slots, decoded)[j].slot.index < Candidates(slots, decoded)[k].slot.index
    decreases |slots|
  {
    hide DumpFor;
    if slots != [] {
      var init, s := slots[..|slots| - 1], slots[|slots| - 1];
      CandidatesAscend(init, decoded);
      CandidatesAre(init, decoded);
      var before := Candidates(init, decoded);
      forall k | 0 <= k < |before|
        ensures before[k].slot.index < s.index
      {
        assert before[k] in before;
        var i :| 0 <= i < |init| && init[i] == before[k].slot;
        assert slots[i] == init[i];
      }
    }
  }

  /**
   * In a version 2 root of an Impulse Tracker file, compressed samples or not: a streamed sample that can
   * sound within reach of an order is required there exactly when it is the last candidate at its offset.
   */
  lemma ItV2CoversIff(f: Foreign, data: Bytes, decoded: seq<Dump>, cdc: CdcConfig, tables: Option<SeekTables>,
                      chosen: seq<Candidate>, b: BuiltV2, order: nat, p: nat, p2: nat, k: nat, ch: nat, s: nat, j: nat)
    requires cdc.max > 0 && HasHeader(data) && IsItV2(f, data, decoded, cdc, tables, chosen, b)
    requires SoundsFrom(ItModel(data), order, p, p2, k, ch, s) && s + 1 in Indices(chosen)
    requires var cands := Candidates(FileSlots(data), decoded); j < |cands| && cands[j].slot.index == s + 1
    ensures s + 1 in RequiredAt(b.plan, order) <==> LastAtOffset(Registered(Candidates(FileSlots(data), decoded)), j)
  {
    hide FileSlots, ItModel, HasHeader, ModelOk, TablesOk, PlanFor, SavesTooLittle, Candidates, Chosen, RequiredAt, Sounding,
      Played, EventsAt, WithinReach, SamplesAre, SkeletonRecipeIs;
    var slots := FileSlots(data);
    var cands := Candidates(slots, decoded);
    ItJoined(data);
    CandidatesAre(slots, decoded);
    CandidatesAscend(slots, decoded);
    assert cands[j] in cands;
    V2CoversIff(ItModel(data), tables.value, slots, decoded, chosen, p, p2, k, ch, s, j);
  }
}
