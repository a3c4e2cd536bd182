/**
 * Building a v2 root: stream what the plan can gate, compressed samples as decoded PCM, and fall back to
 * leaving the compressed ones in the skeleton when that saves too little at the start of playback.
 */
module BuildV2 {
  import opened Basics
  import opened Cdc
  import opened Spans
  import opened Skeleton
  import opened Recipe
  import opened SkeletonLaws
  import opened Plan
  import opened PlanLaws
  import opened Blocks
  import opened Repack
  import opened Seek
  import opened FenceCoverage
  import opened Sorting

  const COMPRESSED_STREAM_MIN_SAVING: int := 128 * 1024

  /** A slot with the PCM dumped for it. */
  datatype Candidate = Candidate(slot: Slot, dump: Dump)

  datatype SampleV2 = SampleV2(index: nat, frames: nat, channels: int, bitDepth: int, chunks: seq<Cid>)

  /** What the root lists: the sample table, the plan, and the recipe of the skeleton. */
  datatype BuiltV2 = BuiltV2(samples: seq<SampleV2>, plan: Plan, skeletonChunks: seq<Cid>, layout: seq<nat>, store: Store)

  // ---- Choosing the samples ----

  /** The slots with a dump of their own length, in slot order. */
  function Candidates(slots: seq<Slot>, decoded: seq<Dump>): seq<Candidate> {
    if slots == [] then []
    else
      var s := slots[|slots| - 1];
      var d := DumpFor(decoded, s.index);
      Candidates(slots[..|slots| - 1], decoded) +
      if d.Some? && d.value.data != [] && |d.value.data| == s.length then [Candidate(s, d.value)] else []
  }

  method FindCandidates(slots: seq<Slot>, decoded: seq<Dump>) returns (cands: seq<Candidate>)
    ensures cands == Candidates(slots, decoded)
  {
    hide DumpFor;
    var dumps := IndexDumps(decoded);
    cands := [];
    for k := 0 to |slots|
      invariant cands == Candidates(slots[..k], decoded)
    {
      var s := slots[k];
      assert slots[..k + 1][..k] == slots[..k];
      if s.index in dumps && dumps[s.index].data != [] && |dumps[s.index].data| == s.length {
        cands := cands + [Candidate(s, dumps[s.index])];
      }
    }
    assert slots[..|slots|] == slots;
  }

  function Registered(cands: seq<Candidate>): (r: seq<StreamedSlot>)
    ensures |r| == |cands|
  {
    seq(|cands|, k requires 0 <= k < |cands| => StreamedSlot(cands[k].slot.offset, cands[k].slot.index))
  }

  /** The samples some checkpoint names. */
  function Covers(plan: Plan): set<nat> {
    set c, s | c in plan.checkpoints && s in c.samples :: s
  }

  /** Compressed slots are streamed only when the plan covers them, and not at all with `demote`. */
  function Chosen(cands: seq<Candidate>, covered: set<nat>, demote: bool): seq<Candidate> {
    if cands == [] then []
    else
      var c := cands[|cands| - 1];
      Chosen(cands[..|cands| - 1], covered, demote) +
      if !c.slot.compressed || (!demote && c.slot.index in covered) then [c] else []
  }

  method Choose(cands: seq<Candidate>, covered: set<nat>, demote: bool) returns (chosen: seq<Candidate>)
    ensures chosen == Chosen(cands, covered, demote)
  {
    chosen := [];
    for k := 0 to |cands|
      invariant chosen == Chosen(cands[..k], covered, demote)
    {
      var c := cands[k];
      assert cands[..k + 1][..k] == cands[..k];
      if !c.slot.compressed || (!demote && c.slot.index in covered) {
        chosen := chosen + [c];
      }
    }
    assert cands[..|cands|] == cands;
  }

  function ChosenSlots(chosen: seq<Candidate>): (slots: seq<Slot>)
    ensures |slots| == |chosen| && forall k :: 0 <= k < |slots| ==> slots[k] == chosen[k].slot
  {
    seq(|chosen|, k requires 0 <= k < |chosen| => chosen[k].slot)
  }

  function Indices(chosen: seq<Candidate>): set<nat> {
    set c | c in chosen :: c.slot.index
  }

  predicate AnyCompressed(chosen: seq<Candidate>) {
    exists k :: 0 <= k < |chosen| && chosen[k].slot.compressed
  }

  /** The candidates are the slots with a dump of their own length, each with that dump. */
  lemma {:induction false} CandidatesAre(slots: seq<Slot>, decoded: seq<Dump>)
    ensures forall c :: c in Candidates(slots, decoded) <==>
      c.slot in slots && DumpFor(decoded, c.slot.index) == Some(c.dump) && c.dump.data != [] && |c.dump.data| == c.slot.length
    decreases |slots|
  {
    hide DumpFor;
    if slots != [] {
      CandidatesAre(slots[..|slots| - 1], decoded);
      assert slots == slots[..|slots| - 1] + [slots[|slots| - 1]];
    }
  }

  /** Of them the raw ones are streamed, and the compressed ones the plan covers unless they are demoted. */
  lemma {:induction false} ChosenAre(cands: seq<Candidate>, covered: set<nat>, demote: bool)
    ensures forall c :: c in Chosen(cands, covered, demote) <==>
      c in cands && (!c.slot.compressed || (!demote && c.slot.index in covered))
    decreases |cands|
  {
    if cands != [] {
      ChosenAre(cands[..|cands| - 1], covered, demote);
      assert cands == cands[..|cands| - 1] + [cands[|cands| - 1]];
    }
  }

  lemma ChosenFit(data: Bytes, slots: seq<Slot>, decoded: seq<Dump>, covered: set<nat>, demote: bool)
    requires AllInFile(slots, |data|)
    ensures AllInFile(ChosenSlots(Chosen(Candidates(slots, decoded), covered, demote)), |data|)
  {
    hide InFile, Candidates, Chosen, DumpFor;
    CandidatesAre(slots, decoded);
    ChosenAre(Candidates(slots, decoded), covered, demote);
    var chosen := Chosen(Candidates(slots, decoded), covered, demote);
    assert forall k | 0 <= k < |chosen| :: chosen[k] in chosen;
  }

  // ---- The warm set ----

  /** Total size of a set of blocks, each counted once. */
  ghost function Weight(blocks: set<Bytes>): nat {
    if blocks == {} then 0 else var b :| b in blocks; |b| + Weight(blocks - {b})
  }

  lemma {:induction false} WeightAdd(blocks: set<Bytes>, b: Bytes)
    requires b !in blocks
    ensures Weight(blocks + {b}) == |b| + Weight(blocks)
    decreases blocks
  {
    var all := blocks + {b};
    assert exists x :: x in all && Weight(all) == |x| + Weight(all - {x});
    var x :| x in all && Weight(all) == |x| + Weight(all - {x});
    if x == b {
      assert all - {x} == blocks;
    } else {
      WeightAdd(blocks - {x}, b);
      WeightAdd(blocks - {x}, x);
      assert blocks - {x} + {b} == all - {x} && blocks - {x} + {x} == blocks;
    }
  }

  lemma {:induction false} WeightOfList(blocks: seq<Bytes>, also: set<Bytes>)
    ensures Weight((set b | b in blocks) + also) <= |Concat(blocks)| + Weight(also)
    decreases |blocks|
  {
    if blocks == [] {
      assert (set b | b in blocks) + also == also;
    } else {
      var b, rest := blocks[0], (set x | x in blocks[1..]) + also;
      assert blocks == [b] + blocks[1..];
      WeightOfList(blocks[1..], also);
      assert (set x | x in blocks) + also == rest + {b};
      if b in rest {
        assert rest + {b} == rest;
      } else {
        WeightAdd(rest, b);
      }
    }
  }

  /** The blocks behind a set of CIDs. */
  ghost function Contents(store: Store, cids: set<Cid>): set<Bytes> {
    set c | c in cids && c in store :: store[c]
  }

  /** Raw leaves of one content have one CID, so counting CIDs once counts contents once. */
  ghost predicate Leaves(store: Store, cids: set<Cid>) {
    forall c :: c in cids ==> c in store && c.codec == RAW_CODE
  }

  lemma NewLeaf(f: Foreign, store: Store, seen: set<Cid>, cid: Cid)
    requires Addressed(f, store) && Leaves(store, seen + {cid}) && cid !in seen
    ensures store[cid] !in Contents(store, seen) && Contents(store, seen + {cid}) == Contents(store, seen) + {store[cid]}
  {
    forall c | c in seen
      ensures store[c] != store[cid]
    {
      SameLeaf(f, store, c, cid);
    }
  }

  lemma SameLeaf(f: Foreign, store: Store, c: Cid, d: Cid)
    requires Addressed(f, store) && Leaves(store, {c, d})
    ensures store[c] == store[d] ==> c == d
  {
  }

  lemma NothingWeighs(store: Store)
    ensures Contents(store, {}) == {} && Weight({}) == 0
  {
  }

  /** `for (const c of cids) warm.add(c)`, keeping the total size. */
  method AddWarm(ghost f: Foreign, store: Store, cids: seq<Cid>, seen0: set<Cid>, total0: nat)
    returns (seen: set<Cid>, total: nat)
    requires Addressed(f, store) && Leaves(store, seen0) && total0 == Weight(Contents(store, seen0))
    requires Gather(store, cids).Some? && AllRaw(cids)
    ensures Leaves(store, seen) && total == Weight(Contents(store, seen))
    ensures Contents(store, seen) == Contents(store, seen0) + set b | b in Gather(store, cids).value
  {
    hide Weight, Gather;
    seen, total := seen0, total0;
    ghost var blocks := Gather(store, cids).value;
    for k := 0 to |cids|
      invariant Leaves(store, seen) && total == Weight(Contents(store, seen))
      invariant Contents(store, seen) == Contents(store, seen0) + set b | b in blocks[..k]
    {
      assert blocks[..k + 1] == blocks[..k] + [blocks[k]] && blocks[k] == store[cids[k]];
      if cids[k] !in seen {
        NewLeaf(f, store, seen, cids[k]);
        WeightAdd(Contents(store, seen), store[cids[k]]);
        seen, total := seen + {cids[k]}, total + |store[cids[k]]|;
      } else {
        assert store[cids[k]] in Contents(store, seen);
      }
    }
    assert blocks[..|cids|] == blocks;
  }

  // ---- The sample table ----

  ghost predicate SampleIs(store: Store, c: Candidate, cdc: CdcConfig, r: SampleV2)
    requires cdc.max > 0
  {
    && r.index == c.slot.index && r.frames == c.dump.frames
    && r.channels == c.slot.channels && r.bitDepth == c.slot.bitDepth
    && AllRaw(r.chunks) && Gather(store, r.chunks) == Some(Chunks(c.dump.data, cdc))
  }

  ghost predicate SamplesAre(store: Store, chosen: seq<Candidate>, cdc: CdcConfig, samples: seq<SampleV2>)
    requires cdc.max > 0
  {
    |samples| == |chosen| && forall k :: 0 <= k < |samples| ==> SampleIs(store, chosen[k], cdc, samples[k])
  }

  lemma SamplesStay(a: Store, b: Store, chosen: seq<Candidate>, cdc: CdcConfig, samples: seq<SampleV2>)
    requires cdc.max > 0 && Extends(a, b) && SamplesAre(a, chosen, cdc, samples)
    ensures SamplesAre(b, chosen, cdc, samples)
  {
    hide Gather;
    forall k | 0 <= k < |samples|
      ensures SampleIs(b, chosen[k], cdc, samples[k])
    {
      assert SampleIs(a, chosen[k], cdc, samples[k]);
      GatherExtends(a, b, samples[k].chunks);
    }
  }

  method AddSamplesV2(f: Foreign, store: Store, chosen: seq<Candidate>, cdc: CdcConfig)
    returns (samples: seq<SampleV2>, store': Store)
    requires Lawful(f) && Addressed(f, store) && cdc.max > 0
    ensures Addressed(f, store') && Extends(store, store') && SamplesAre(store', chosen, cdc, samples)
  {
    hide Lawful, Addressed, Gather, Chunks;
    samples, store' := [], store;
    for k := 0 to |chosen|
      invariant Addressed(f, store') && Extends(store, store') && SamplesAre(store', chosen[..k], cdc, samples)
    {
      var c := chosen[k];
      ghost var before := store';
      var chunks;
      chunks, store' := ChunkToCids(f, store', c.dump.data, cdc);
      SamplesStay(before, store', chosen[..k], cdc, samples);
      samples := samples + [SampleV2(c.slot.index, c.dump.frames, c.slot.channels, c.slot.bitDepth, chunks)];
    }
    assert chosen[..|chosen|] == chosen;
  }

  /** The chunks a client must have before order 0: the skeleton's, and those of the samples required there. */
  ghost function WarmChunks(recipe: Recipe, chosen: seq<Candidate>, required: set<nat>, cdc: CdcConfig): set<Bytes>
    requires cdc.max > 0
  {
    (set b | b in recipe.chunks) +
    set k, b | 0 <= k < |chosen| && chosen[k].slot.index in required && b in Chunks(chosen[k].dump.data, cdc) :: b
  }

  method SamplesByIndex(samples: seq<SampleV2>) returns (m: map<nat, SampleV2>)
    ensures forall i :: i in m ==> m[i] in samples && m[i].index == i
    ensures forall k :: 0 <= k < |samples| ==> samples[k].index in m
  {
    m := map[];
    for k := 0 to |samples|
      invariant forall i :: i in m ==> m[i] in samples && m[i].index == i
      invariant forall j :: 0 <= j < k ==> samples[j].index in m
    {
      m := m[samples[k].index := samples[k]];
    }
  }

  /** Slots of one number have one dump. */
  ghost predicate OneDumpEach(chosen: seq<Candidate>) {
    forall j, k :: 0 <= j < |chosen| && 0 <= k < |chosen| && chosen[j].slot.index == chosen[k].slot.index ==>
      chosen[j].dump == chosen[k].dump
  }

  /** What first playback transfers, each chunk counted once. */
  method WarmBytes(ghost f: Foreign, b: BuiltV2, ghost recipe: Recipe, ghost chosen: seq<Candidate>, ghost cdc: CdcConfig)
    returns (total: nat)
    requires cdc.max > 0 && Addressed(f, b.store) && OneDumpEach(chosen)
    requires AllRaw(b.skeletonChunks) && Gather(b.store, b.skeletonChunks) == Some(recipe.chunks)
    requires SamplesAre(b.store, chosen, cdc, b.samples)
    ensures total == Weight(WarmChunks(recipe, chosen, RequiredAt(b.plan, 0), cdc))
  {
    hide Weight, Gather, Addressed, Chunks, RequiredAt, AllRaw;
    NothingWeighs(b.store);
    var seen;
    seen, total := AddWarm(f, b.store, b.skeletonChunks, {}, 0);
    var rest := RequiredAtZero(b.plan);
    var byIndex := SamplesByIndex(b.samples);
    ghost var required, done := rest, {};
    assert WarmChunks(recipe, chosen, {}, cdc) == Contents(b.store, seen);
    while rest != {}
      invariant required == done + rest && done !! rest
      invariant Leaves(b.store, seen) && total == Weight(Contents(b.store, seen))
      invariant Contents(b.store, seen) == WarmChunks(recipe, chosen, done, cdc)
      decreases rest
    {
      var ix :| ix in rest;
      if ix in byIndex {
        var j: nat :| j < |b.samples| && b.samples[j] == byIndex[ix];
        assert SampleIs(b.store, chosen[j], cdc, b.samples[j]);
        WarmStep(recipe, chosen, done, cdc, j);
        seen, total := AddWarm(f, b.store, byIndex[ix].chunks, seen, total);
      } else {
        NotChosen(b.store, chosen, cdc, b.samples, ix);
        WarmSkip(recipe, chosen, done, cdc, ix);
      }
      rest := rest - {ix};
      done := done + {ix};
    }
    assert done == required;
  }

  lemma WarmStep(recipe: Recipe, chosen: seq<Candidate>, done: set<nat>, cdc: CdcConfig, j: nat)
    requires cdc.max > 0 && OneDumpEach(chosen) && j < |chosen|
    ensures WarmChunks(recipe, chosen, done + {chosen[j].slot.index}, cdc) ==
      WarmChunks(recipe, chosen, done, cdc) + set b | b in Chunks(chosen[j].dump.data, cdc)
  {
    hide Chunks;
  }

  lemma NotChosen(store: Store, chosen: seq<Candidate>, cdc: CdcConfig, samples: seq<SampleV2>, ix: nat)
    requires cdc.max > 0 && SamplesAre(store, chosen, cdc, samples)
    requires forall k :: 0 <= k < |samples| ==> samples[k].index != ix
    ensures forall k :: 0 <= k < |chosen| ==> chosen[k].slot.index != ix
  {
    hide Gather, Chunks;
    assert forall k | 0 <= k < |chosen| :: SampleIs(store, chosen[k], cdc, samples[k]);
  }

  lemma WarmSkip(recipe: Recipe, chosen: seq<Candidate>, done: set<nat>, cdc: CdcConfig, ix: nat)
    requires cdc.max > 0 && forall k :: 0 <= k < |chosen| ==> chosen[k].slot.index != ix
    ensures WarmChunks(recipe, chosen, done + {ix}, cdc) == WarmChunks(recipe, chosen, done, cdc)
  {
    hide Chunks;
  }

  // ---- The build ----

  function FullPlan(slots: seq<Slot>, decoded: seq<Dump>, tables: Option<SeekTables>): Plan {
    PlanOf(tables, Registered(Candidates(slots, decoded)))
  }

  function ChosenFor(slots: seq<Slot>, decoded: seq<Dump>, tables: Option<SeekTables>, demote: bool): seq<Candidate> {
    Chosen(Candidates(slots, decoded), Covers(FullPlan(slots, decoded, tables)), demote)
  }

  /** The plan, tightened to what is streamed. */
  function PlanFor(slots: seq<Slot>, decoded: seq<Dump>, tables: Option<SeekTables>, chosen: seq<Candidate>): Plan {
    Prune(FullPlan(slots, decoded, tables), Indices(chosen))
  }

  ghost predicate SkeletonRecipeIs(data: Bytes, chosen: seq<Candidate>, cdc: CdcConfig, r: Recipe)
    requires cdc.max > 0
  {
    && AllInFile(ChosenSlots(chosen), |data|)
    && RecipeFor(SkeletonOf(data, ChosenSlots(chosen)), ZeroSpans(ChosenSlots(chosen), |data|), cdc, r)
  }

  /** What a root that streams `chosen` holds. */
  ghost predicate HoldsV2(f: Foreign, data: Bytes, plan: Plan, chosen: seq<Candidate>, cdc: CdcConfig, b: BuiltV2)
    requires cdc.max > 0
  {
    && Addressed(f, b.store) && SamplesAre(b.store, chosen, cdc, b.samples) && b.plan == plan
    && AllRaw(b.skeletonChunks) && Gather(b.store, b.skeletonChunks).Some?
    && SkeletonRecipeIs(data, chosen, cdc, Recipe(Gather(b.store, b.skeletonChunks).value, b.layout))
  }

  /** Streaming compressed samples saves less at first playback than it must. */
  ghost predicate SavesTooLittle(data: Bytes, chosen: seq<Candidate>, plan: Plan, cdc: CdcConfig)
    requires cdc.max > 0
  {
    AnyCompressed(chosen) && exists r: Recipe :: SkeletonRecipeIs(data, chosen, cdc, r) && Saving(data, chosen, plan, cdc, r) < COMPRESSED_STREAM_MIN_SAVING
  }

  ghost function Saving(data: Bytes, chosen: seq<Candidate>, plan: Plan, cdc: CdcConfig, r: Recipe): int
    requires cdc.max > 0
  {
    |data| - Weight(WarmChunks(r, chosen, RequiredAt(plan, 0), cdc))
  }

  method BuildChosen(f: Foreign, data: Bytes, chosen: seq<Candidate>, plan: Plan, cdc: CdcConfig) returns (b: BuiltV2)
    requires Lawful(f) && cdc.max > 0 && AllInFile(ChosenSlots(chosen), |data|)
    ensures HoldsV2(f, data, plan, chosen, cdc, b)
  {
    hide Lawful, Addressed, Gather, SamplesAre, RecipeFor, SkeletonOf, ZeroSpans, ZeroedOn, Assemble, AllInFile;
    assert Addressed(f, map[]) by { NothingStored(f); }
    var samples, store1 := AddSamplesV2(f, map[], chosen, cdc);
    var recipe, skeletonBytes := SkeletonRecipe(data, ChosenSlots(chosen), cdc);
    var cids, store2 := AddChunks(f, store1, recipe.chunks);
    SamplesStay(store1, store2, chosen, cdc, samples);
    b := BuiltV2(samples, plan, cids, recipe.layout, store2);
  }

  lemma NothingStored(f: Foreign)
    ensures Addressed(f, map[])
  {
  }

  lemma ChosenDumps(slots: seq<Slot>, decoded: seq<Dump>, tables: Option<SeekTables>, demote: bool)
    ensures OneDumpEach(ChosenFor(slots, decoded, tables, demote))
  {
    hide Candidates, Chosen, DumpFor, PlanOf;
    CandidatesAre(slots, decoded);
    ChosenAre(Candidates(slots, decoded), Covers(FullPlan(slots, decoded, tables)), demote);
    var chosen := ChosenFor(slots, decoded, tables, demote);
    assert forall k | 0 <= k < |chosen| :: chosen[k] in chosen;
  }

  /**
   * `buildDagV2`: plan first, stream what the plan covers, and rebuild with the compressed samples left in
   * the skeleton when streaming them saves too little, and only then.
   */
  method BuildDagV2(f: Foreign, data: Bytes, slots: seq<Slot>, decoded: seq<Dump>, cdc: CdcConfig,
                    tables: Option<SeekTables>, noCompressedStream: bool)
    returns (b: BuiltV2, chosen: seq<Candidate>)
    requires Lawful(f) && AllInFile(slots, |data|) && cdc.max > 0
    ensures var all := ChosenFor(slots, decoded, tables, false);
      var demote := noCompressedStream || SavesTooLittle(data, all, PlanFor(slots, decoded, tables, all), cdc);
      chosen == ChosenFor(slots, decoded, tables, demote)
    ensures HoldsV2(f, data, PlanFor(slots, decoded, tables, chosen), chosen, cdc, b)
    decreases if noCompressedStream then 0 else 1
  {
    hide Lawful, Candidates, Chosen, Covers, PlanOf, Prune, Saving, SkeletonRecipeIs, InFile, OneDumpEach;
    var cands := FindCandidates(slots, decoded);
    var full := BuildPlan(tables, Registered(cands));
    chosen := Choose(cands, Covers(full), noCompressedStream);
    var plan, dropped := PrunePlan(full, Indices(chosen));
    ChosenFit(data, slots, decoded, Covers(full), noCompressedStream);
    b := BuildChosen(f, data, chosen, plan, cdc);
    if !noCompressedStream && AnyCompressed(chosen) {
      ChosenDumps(slots, decoded, tables, false);
      ghost var recipe := Recipe(Gather(b.store, b.skeletonChunks).value, b.layout);
      var warmBytes := WarmBytes(f, b, recipe, chosen, cdc);
      SavingIs(data, chosen, plan, cdc, recipe, warmBytes);
      if |data| - warmBytes < COMPRESSED_STREAM_MIN_SAVING {
        b, chosen := BuildDagV2(f, data, slots, decoded, cdc, tables, true);
      }
    }
  }

  lemma SavingIs(data: Bytes, chosen: seq<Candidate>, plan: Plan, cdc: CdcConfig, recipe: Recipe, warm: nat)
    requires cdc.max > 0 && SkeletonRecipeIs(data, chosen, cdc, recipe) && AnyCompressed(chosen)
    requires warm == Weight(WarmChunks(recipe, chosen, RequiredAt(plan, 0), cdc))
    ensures SavesTooLittle(data, chosen, plan, cdc) <==> |data| - warm < COMPRESSED_STREAM_MIN_SAVING
  {
    hide RecipeFor, WarmChunks, Weight, RequiredAt;
    assert Saving(data, chosen, plan, cdc, recipe) == |data| - warm;
    if SavesTooLittle(data, chosen, plan, cdc) {
      var r: Recipe :| SkeletonRecipeIs(data, chosen, cdc, r) && Saving(data, chosen, plan, cdc, r) < COMPRESSED_STREAM_MIN_SAVING;
      RecipeIsUnique(SkeletonOf(data, ChosenSlots(chosen)), ZeroSpans(ChosenSlots(chosen), |data|), cdc, r, recipe);
    }
  }

  // ---- What it promises ----

  /** Every compressed slot a root streams is one its plan names, so the fence waits for it. */
  lemma StreamedCompressedIsCovered(slots: seq<Slot>, decoded: seq<Dump>, tables: Option<SeekTables>, demote: bool, c: Candidate)
    requires c in ChosenFor(slots, decoded, tables, demote) && c.slot.compressed
    ensures !demote && c.slot.index in Covers(PlanFor(slots, decoded, tables, ChosenFor(slots, decoded, tables, demote)))
  {
    hide Candidates, Chosen, PlanOf, Prune;
    var full, chosen := FullPlan(slots, decoded, tables), ChosenFor(slots, decoded, tables, demote);
    ChosenAre(Candidates(slots, decoded), Covers(full), demote);
    PrunedCovers(full, Indices(chosen), c.slot.index);
  }

  lemma PrunedCovers(plan: Plan, streamed: set<nat>, s: nat)
    requires s in Covers(plan) && s in streamed
    ensures s in Covers(Prune(plan, streamed))
  {
    hide FilterMap;
    var c :| c in plan.checkpoints && s in c.samples;
    KeepStreamedMembers(c.samples, streamed);
    FilterMapMembers(plan.checkpoints, Pruner(streamed));
    var kept := Pruner(streamed)(c);
    assert kept.Some? && kept.value in Prune(plan, streamed).checkpoints;
  }

  /**
   * A streamed slot that can sound within reach of an order is required there exactly when no later
   * candidate, streamed or not, shares its offset.
   */
  lemma V2CoversIff(m: SimModel, t: SeekTables, slots: seq<Slot>, decoded: seq<Dump>, chosen: seq<Candidate>,
                    p: nat, p2: nat, k: nat, ch: nat, s: int, j: nat)
    requires ModelOk(m) && TablesOk(m, t) && DistinctIndices(Registered(Candidates(slots, decoded)))
    requires p < |m.orderPats| && WithinReach(|m.orderPats|, p, p2)
    requires p2 < |m.orderPats| && k <= |EventsAt(m, p2)|
    requires Sounding(Played(m, p2, k), ch) == Some(s)
    requires var cands := Candidates(slots, decoded);
      j < |cands| && cands[j].slot.offset == m.offsetOf(s) && cands[j].slot.index in Indices(chosen)
    ensures Candidates(slots, decoded)[j].slot.index in RequiredAt(PlanFor(slots, decoded, Some(t), chosen), m.orderPats[p].order)
      <==> LastAtOffset(Registered(Candidates(slots, decoded)), j)
  {
    hide Candidates, ModelOk, TablesOk, PlanOf, Prune, RequiredAt, Sounding, Played, EventsAt, WithinReach, SlotAt, LastAtOffset, DistinctIndices;
    var streamed := Registered(Candidates(slots, decoded));
    var plan, order, i := FullPlan(slots, decoded, Some(t)), m.orderPats[p].order, streamed[j].index;
    SlotCoveredIffLastAtOffset(m, t, streamed, p, p2, k, ch, s, j);
    PruningKeepsRequired(plan, Indices(chosen), order);
    if i in RequiredAt(Prune(plan, Indices(chosen)), order) {
      var c := PrunedRequiredIsNamed(plan, Indices(chosen), order, i);
      NamedIsLast(t, streamed, c, i, j);
    }
  }

  lemma NamedIsLast(t: SeekTables, streamed: seq<StreamedSlot>, c: Checkpoint, i: nat, j: nat)
    requires c in PlanOf(Some(t), streamed).checkpoints && i in c.samples && DistinctIndices(streamed)
    requires j < |streamed| && streamed[j].index == i
    ensures LastAtOffset(streamed, j)
  {
    hide PlanOf, SlotAt;
    var o := CheckpointNamesRegistered(t, streamed, c, i);
    var l := SlotAtIsLast(streamed, o, i);
    assert l == j;
  }

  /** What the clients assemble for playback, and when it is the skeleton that was built. */
  lemma V2SkeletonIff(f: Foreign, data: Bytes, plan: Plan, chosen: seq<Candidate>, cdc: CdcConfig, b: BuiltV2)
    requires cdc.max > 0 && HoldsV2(f, data, plan, chosen, cdc, b)
    ensures var slots := ChosenSlots(chosen);
      Assemble(Gather(b.store, b.skeletonChunks).value, b.layout) == Ok(SkeletonOf(data, slots)) <==>
      forall i: nat :: i < |data| && HeaderAt(slots, i) && Covered(ZeroSpans(slots, |data|), i) ==>
        EndsZero(data, slots, slots, i, false)
  {
    hide Addressed, SamplesAre, Gather, RecipeFrom, SkeletonOf, ZeroSpans, ZeroedOn, Assemble, AllRaw, InFile, EndsZero, HeaderAt, Covered;
    var slots := ChosenSlots(chosen);
    var skel, spans := SkeletonOf(data, slots), ZeroSpans(slots, |data|);
    var r := Recipe(Gather(b.store, b.skeletonChunks).value, b.layout);
    RecipeAssembles(skel, spans, cdc, r);
    LosslessIffHeadersSurvive(data, slots);
  }

  lemma RecipeAssembles(skel: Bytes, spans: seq<Span>, cdc: CdcConfig, r: Recipe)
    requires cdc.max > 0 && RecipeFor(skel, spans, cdc, r)
    ensures Assemble(r.chunks, r.layout) == Ok(ZeroedOn(skel, spans))
  {
    hide RecipeFrom, ZeroedOn, Assemble;
    var m: seq<Span> :| Separated(m, |skel|) && SameCover(m, spans, |skel|) && r == RecipeFrom(skel, m, 0, cdc);
    RecipeDenotes(skel, m, cdc);
    SameCoverSameZeros(skel, m, spans);
  }
}
