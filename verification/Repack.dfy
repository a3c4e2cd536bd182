/**
 * Building a streamed (v3 or v4) root: choose the samples a transform mask reproduces byte for byte,
 * zero their regions, chunk the rest by the skeleton recipe, and index it all under one root.
 */
module Repack {
  import opened Basics
  import opened Cdc
  import opened CdcLaws
  import opened Spans
  import opened Skeleton
  import opened Recipe
  import opened SkeletonLaws
  import opened SampleTransform
  import opened Plan
  import opened Blocks
  import opened Rebuild

  const INDEX_SPILL_BYTES: nat := 256 * 1024

  /** PCM dumped for a slot by the player; nothing ties it to the file. */
  datatype Dump = Dump(index: nat, frames: nat, data: Bytes)

  /** A slot chosen for streaming, with its PCM and the mask that reproduces the file's bytes. */
  datatype Pick = Pick(slot: Slot, dump: Dump, enc: nat)

  // ---- Choosing the samples to stream ----

  function OnDiskBytes(data: Bytes, s: Slot): Bytes
    requires s.offset + s.length <= |data|
  {
    data[s.offset..s.offset + s.length]
  }

  predicate Reproduces(enc: nat, d: Bytes, onDisk: Bytes, s: Slot) {
    ApplyEncSpec(enc, d, s.bitDepth, s.channels) == onDisk
  }

  /** The first of the eight masks that turns the dump into the on-disk bytes. */
  method PickEnc(d: Bytes, onDisk: Bytes, s: Slot) returns (enc: Option<nat>)
    ensures enc.Some? ==> enc.value < 8 && Reproduces(enc.value, d, onDisk, s)
    ensures enc.Some? ==> forall m: nat :: m < enc.value ==> !Reproduces(m, d, onDisk, s)
    ensures enc.None? ==> forall m: nat :: m < 8 ==> !Reproduces(m, d, onDisk, s)
  {
    for m := 0 to 8
      invariant forall k: nat :: k < m ==> !Reproduces(k, d, onDisk, s)
    {
      var r := ApplyEnc(m, d, s.bitDepth, s.channels);
      if r == onDisk {
        return Some(m);
      }
    }
    return None;
  }

  /** The dump registered for a slot: the last one with its index. */
  function DumpFor(decoded: seq<Dump>, index: nat): Option<Dump> {
    if decoded == [] then None
    else
      var last := decoded[|decoded| - 1];
      if last.index == index then Some(last) else DumpFor(decoded[..|decoded| - 1], index)
  }

  /** Entry `k` is the last one for its slot. */
  predicate LastDump(decoded: seq<Dump>, k: nat)
    requires k < |decoded|
  {
    forall j :: k < j < |decoded| ==> decoded[j].index != decoded[k].index
  }

  lemma {:induction false} DumpForIsLast(decoded: seq<Dump>, index: nat, k: nat)
    requires k < |decoded| && decoded[k].index == index && LastDump(decoded, k)
    ensures DumpFor(decoded, index) == Some(decoded[k])
    decreases |decoded|
  {
    if k < |decoded| - 1 {
      DumpForIsLast(decoded[..|decoded| - 1], index, k);
    }
  }

  method IndexDumps(decoded: seq<Dump>) returns (m: map<nat, Dump>)
    ensures forall i: nat :: DumpFor(decoded, i) == if i in m then Some(m[i]) else None
  {
    m := map[];
    for k := 0 to |decoded|
      invariant forall i: nat :: DumpFor(decoded[..k], i) == if i in m then Some(m[i]) else None
    {
      assert decoded[..k + 1][..k] == decoded[..k];
      m := m[decoded[k].index := decoded[k]];
    }
    assert decoded[..|decoded|] == decoded;
  }

  /** A dump can be streamed for a slot when it has the slot's length and some mask reproduces the file. */
  ghost predicate Streamable(data: Bytes, s: Slot, decoded: seq<Dump>)
    requires s.offset + s.length <= |data|
  {
    var d := DumpFor(decoded, s.index);
    && d.Some? && d.value.data != [] && |d.value.data| == s.length
    && exists m: nat :: m < 8 && Reproduces(m, d.value.data, OnDiskBytes(data, s), s)
  }

  ghost predicate PickOk(data: Bytes, p: Pick) {
    && !p.slot.compressed && p.slot.offset + p.slot.length <= |data|
    && |p.dump.data| == p.slot.length
    && Reproduces(p.enc, p.dump.data, OnDiskBytes(data, p.slot), p.slot)
  }

  ghost predicate PicksOk(data: Bytes, picks: seq<Pick>) {
    forall k :: 0 <= k < |picks| ==> PickOk(data, picks[k])
  }

  /** The streamable slots, in slot order, each with its dump and its first mask. */
  ghost predicate PicksFor(data: Bytes, slots: seq<Slot>, decoded: seq<Dump>, picks: seq<Pick>)
    requires AllInFile(slots, |data|) && NoneCompressed(slots)
    decreases |slots|
  {
    if slots == [] then picks == []
    else
      var init, s := slots[..|slots| - 1], slots[|slots| - 1];
      assert InFile(s, |data|);
      if !Streamable(data, s, decoded) then PicksFor(data, init, decoded, picks)
      else
        && picks != []
        && PicksFor(data, init, decoded, picks[..|picks| - 1])
        && PickIs(data, s, decoded, picks[|picks| - 1])
  }

  ghost predicate PickIs(data: Bytes, s: Slot, decoded: seq<Dump>, p: Pick) {
    && p.slot == s && DumpFor(decoded, s.index) == Some(p.dump) && PickOk(data, p)
    && forall m: nat :: m < p.enc ==> !Reproduces(m, p.dump.data, OnDiskBytes(data, s), s)
  }

  method PickSlot(data: Bytes, s: Slot, dump: Option<Dump>, ghost decoded: seq<Dump>) returns (p: Option<Pick>)
    requires s.offset + s.length <= |data| && !s.compressed && dump == DumpFor(decoded, s.index)
    ensures p.Some? <==> Streamable(data, s, decoded)
    ensures p.Some? ==> PickIs(data, s, decoded, p.value)
  {
    hide Reproduces, DumpFor, OnDiskBytes;
    if dump.None? || dump.value.data == [] || |dump.value.data| != s.length {
      return None;
    }
    var onDisk := OnDiskBytes(data, s);
    var enc := PickEnc(dump.value.data, onDisk, s);
    if enc.None? {
      return None;
    }
    return Some(Pick(s, dump.value, enc.value));
  }

  method SelectStreamed(data: Bytes, slots: seq<Slot>, decoded: seq<Dump>) returns (picks: seq<Pick>)
    requires AllInFile(slots, |data|) && NoneCompressed(slots)
    ensures PicksFor(data, slots, decoded, picks)
    ensures PicksOk(data, picks)
  {
    hide Streamable, PickIs, PickOk, DumpFor;
    var dumps := IndexDumps(decoded);
    picks := [];
    for k := 0 to |slots|
      invariant AllInFile(slots[..k], |data|) && NoneCompressed(slots[..k])
      invariant PicksFor(data, slots[..k], decoded, picks)
      invariant PicksOk(data, picks)
    {
      var s := slots[k];
      assert InFile(s, |data|) && slots[..k + 1][..k] == slots[..k];
      var p := PickSlot(data, s, if s.index in dumps then Some(dumps[s.index]) else None, decoded);
      if p.Some? {
        PickIsOk(data, s, decoded, p.value);
        assert (picks + [p.value])[..|picks|] == picks;
        picks := picks + [p.value];
      }
    }
    assert slots[..|slots|] == slots;
  }

  lemma PickIsOk(data: Bytes, s: Slot, decoded: seq<Dump>, p: Pick)
    requires PickIs(data, s, decoded, p)
    ensures PickOk(data, p)
  {
  }

  // ---- The sample table ----

  /** A sample entry describes its pick. */
  ghost predicate RefIs(p: Pick, r: SampleRef) {
    && r.index == p.slot.index && r.frames == p.dump.frames
    && r.channels == p.slot.channels && r.bitDepth == p.slot.bitDepth
    && r.offset == p.slot.offset && r.enc == p.enc
  }

  /** And its leaves give back the dumped PCM. */
  ghost predicate RefOk(f: Foreign, store: Store, p: Pick, r: SampleRef) {
    RefIs(p, r) && PcmOf(f, store, r) == Some(p.dump.data)
  }

  /** Version 4 stores a sample as FLAC when that is smaller, and then only whole frames come back. */
  predicate Kept(f: Foreign, p: Pick, version: nat) {
    var n := |p.dump.data|;
    || version != 4 || |f.flacEncode(p.dump.data, p.slot.channels, p.slot.bitDepth)| >= n
    || (Native(p.slot.channels, p.slot.bitDepth) && WholeFrames(n, p.slot.bitDepth, p.slot.channels))
  }

  ghost predicate AllKept(f: Foreign, picks: seq<Pick>, version: nat) {
    forall k :: 0 <= k < |picks| ==> Kept(f, picks[k], version)
  }

  /** What a build stores of a pick: its PCM comes back exactly when it is kept. */
  ghost predicate RefStored(f: Foreign, store: Store, p: Pick, r: SampleRef, version: nat) {
    && RefIs(p, r) && LeafBytes(store, r).Some?
    && (Kept(f, p, version) ==> RefOk(f, store, p, r))
    && (Native(p.slot.channels, p.slot.bitDepth) && RefOk(f, store, p, r) ==> Kept(f, p, version))
  }

  ghost predicate RefsStored(f: Foreign, store: Store, picks: seq<Pick>, refs: seq<SampleRef>, version: nat) {
    |refs| == |picks| && forall k :: 0 <= k < |refs| ==> RefStored(f, store, picks[k], refs[k], version)
  }

  ghost predicate RefsOk(f: Foreign, store: Store, picks: seq<Pick>, refs: seq<SampleRef>) {
    |refs| == |picks| && forall k :: 0 <= k < |refs| ==> RefOk(f, store, picks[k], refs[k])
  }

  lemma StoredAreOk(f: Foreign, store: Store, picks: seq<Pick>, refs: seq<SampleRef>, version: nat)
    requires RefsStored(f, store, picks, refs, version) && AllKept(f, picks, version)
    ensures RefsOk(f, store, picks, refs)
  {
    hide RefStored, RefOk, Kept;
    forall k | 0 <= k < |refs| ensures RefOk(f, store, picks[k], refs[k]) {
      StoredIsOk(f, store, picks[k], refs[k], version);
    }
  }

  lemma StoredIsOk(f: Foreign, store: Store, p: Pick, r: SampleRef, version: nat)
    requires RefStored(f, store, p, r, version) && Kept(f, p, version)
    ensures RefOk(f, store, p, r)
  {
  }

  lemma RefsExtend(f: Foreign, a: Store, b: Store, picks: seq<Pick>, refs: seq<SampleRef>, version: nat)
    requires RefsStored(f, a, picks, refs, version) && Extends(a, b)
    ensures RefsStored(f, b, picks, refs, version)
  {
    hide Kept;
    forall k | 0 <= k < |refs|
      ensures RefStored(f, b, picks[k], refs[k], version)
    {
      assert RefStored(f, a, picks[k], refs[k], version);
      GatherExtends(a, b, refs[k].chunks);
    }
  }

  /** Version 4 stores a sample as FLAC when that is smaller; version 3 never does. */
  method AddSample(f: Foreign, store: Store, p: Pick, cdc: CdcConfig, version: nat) returns (r: SampleRef, store': Store)
    requires Lawful(f) && Addressed(f, store) && cdc.max > 0
    ensures Addressed(f, store') && Extends(store, store') && RefStored(f, store', p, r, version)
    ensures r.encCodec == FLAC_CODEC <==>
      version == 4 && |f.flacEncode(p.dump.data, p.slot.channels, p.slot.bitDepth)| < |p.dump.data|
    ensures LeafBytes(store', r).Some? && |LeafBytes(store', r).value| <= |p.dump.data|
  {
    hide Addressed;
    var leaf, codec := p.dump.data, 0;
    if version == 4 {
      var flac := f.flacEncode(p.dump.data, p.slot.channels, p.slot.bitDepth);
      if |flac| < |p.dump.data| {
        leaf, codec := flac, FLAC_CODEC;
      }
    }
    var cids;
    cids, store' := ChunkToCids(f, store, leaf, cdc);
    ChunksConcat(leaf, cdc);
    r := SampleRef(p.slot.index, p.dump.frames, p.slot.channels, p.slot.bitDepth, cids, p.slot.offset, p.enc, codec);
    assert LeafBytes(store', r) == Some(leaf);
  }

  method AddSamples(f: Foreign, store: Store, picks: seq<Pick>, cdc: CdcConfig, version: nat)
    returns (refs: seq<SampleRef>, store': Store)
    requires Lawful(f) && Addressed(f, store) && cdc.max > 0
    ensures Addressed(f, store') && Extends(store, store') && RefsStored(f, store', picks, refs, version)
  {
    hide Lawful, RefStored, Addressed;
    refs, store' := [], store;
    for k := 0 to |picks|
      invariant Addressed(f, store') && Extends(store, store') && RefsStored(f, store', picks[..k], refs, version)
    {
      ghost var before := store';
      var r;
      r, store' := AddSample(f, store', picks[k], cdc, version);
      RefsExtend(f, before, store', picks[..k], refs, version);
      refs := refs + [r];
    }
    assert picks[..|picks|] == picks;
  }

  // ---- Writing the samples back restores the file ----

  function PickSlots(picks: seq<Pick>): (slots: seq<Slot>)
    ensures |slots| == |picks| && forall k :: 0 <= k < |picks| ==> slots[k] == picks[k].slot
  {
    seq(|picks|, k requires 0 <= k < |picks| => picks[k].slot)
  }

  ghost predicate InPick(p: Pick, i: int) { p.slot.offset <= i < p.slot.offset + p.slot.length }

  /** Every byte is the file's already, or belongs to a sample still to be written. */
  ghost predicate RestorableBy(data: Bytes, out: Bytes, picks: seq<Pick>) {
    && |out| == |data|
    && forall i :: 0 <= i < |data| ==> out[i] == data[i] || exists k :: 0 <= k < |picks| && InPick(picks[k], i)
  }

  /** A client's transform gives the pick's own bytes of the file. */
  ghost predicate WritesRight(client: Client, data: Bytes, p: Pick)
    requires p.slot.offset + p.slot.length <= |data|
  {
    Transform(client, p.enc, p.dump.data, p.slot.bitDepth, p.slot.channels) == OnDiskBytes(data, p.slot)
  }

  ghost predicate AllWriteRight(client: Client, data: Bytes, picks: seq<Pick>) {
    forall k :: 0 <= k < |picks| ==> PickOk(data, picks[k]) && WritesRight(client, data, picks[k])
  }

  predicate PicksFit(n: nat, picks: seq<Pick>) {
    forall k :: 0 <= k < |picks| ==> picks[k].slot.offset + |picks[k].dump.data| <= n
  }

  function WriteOf(client: Client, p: Pick): (b: Bytes)
    ensures |b| == |p.dump.data|
  {
    Transform(client, p.enc, p.dump.data, p.slot.bitDepth, p.slot.channels)
  }

  /** `out` after a client has written every pick back at its offset, in order. */
  ghost function WrittenBack(client: Client, out: Bytes, picks: seq<Pick>): (r: Bytes)
    requires PicksFit(|out|, picks)
    ensures |r| == |out|
    decreases |picks|
  {
    if picks == [] then out
    else
      WrittenBack(client, Splice(out, picks[0].slot.offset, WriteOf(client, picks[0])), picks[1..])
  }

  lemma PickRestores(client: Client, data: Bytes, out: Bytes, picks: seq<Pick>)
    requires picks != [] && PickOk(data, picks[0]) && WritesRight(client, data, picks[0])
    requires RestorableBy(data, out, picks)
    ensures RestorableBy(data, Splice(out, picks[0].slot.offset, WriteOf(client, picks[0])), picks[1..])
  {
    hide Transform;
    var p := picks[0];
    var b := WriteOf(client, p);
    assert b == OnDiskBytes(data, p.slot);
    var out' := Splice(out, p.slot.offset, b);
    forall i | 0 <= i < |data|
      ensures out'[i] == data[i] || exists k :: 0 <= k < |picks[1..]| && InPick(picks[1..][k], i)
    {
      if !InPick(p, i) && out[i] != data[i] {
        var k :| 0 <= k < |picks| && InPick(picks[k], i);
        assert picks[1..][k - 1] == picks[k];
      }
    }
  }

  /** Overlapping samples included: each write puts the file's own bytes back. */
  lemma {:induction false} WritingRestores(client: Client, data: Bytes, out: Bytes, picks: seq<Pick>)
    requires AllWriteRight(client, data, picks) && RestorableBy(data, out, picks)
    ensures PicksFit(|out|, picks) && WrittenBack(client, out, picks) == data
    decreases |picks|
  {
    hide AllWriteRight, WriteOf, PickOk, WritesRight;
    RightPicksFit(client, data, picks);
    if picks == [] {
      assert out == data;
    } else {
      FirstWritesRight(client, data, picks);
      PickRestores(client, data, out, picks);
      WritingRestores(client, data, Splice(out, picks[0].slot.offset, WriteOf(client, picks[0])), picks[1..]);
    }
  }

  lemma RightPicksFit(client: Client, data: Bytes, picks: seq<Pick>)
    requires AllWriteRight(client, data, picks)
    ensures PicksFit(|data|, picks)
  {
    hide Transform, Reproduces, OnDiskBytes;
    assert forall k | 0 <= k < |picks| :: PickOk(data, picks[k]);
  }

  /** The readers' writing over a sample table that gives back every pick. */
  lemma {:induction false} TableWritesBack(f: Foreign, store: Store, client: Client, out: Bytes, picks: seq<Pick>, refs: seq<SampleRef>)
    requires PicksFit(|out|, picks) && RefsOk(f, store, picks, refs)
    ensures WriteSamples(f, store, client, out, refs) == Some(WrittenBack(client, out, picks))
    decreases |picks|
  {
    hide PcmOf, Transform;
    if picks != [] {
      assert RefOk(f, store, picks[0], refs[0]);
      assert RefsOk(f, store, picks[1..], refs[1..]) by {
        assert forall k :: 0 <= k < |refs[1..]| ==> refs[1..][k] == refs[k + 1] && picks[1..][k] == picks[k + 1];
      }
      TableWritesBack(f, store, client, Splice(out, picks[0].slot.offset, WriteOf(client, picks[0])), picks[1..], refs[1..]);
    }
  }

  lemma FirstWritesRight(client: Client, data: Bytes, picks: seq<Pick>)
    requires AllWriteRight(client, data, picks) && picks != []
    ensures PickOk(data, picks[0]) && WritesRight(client, data, picks[0]) && AllWriteRight(client, data, picks[1..])
  {
  }

  /** The web client writes with the transform the picks were chosen by. */
  lemma WebWritesRight(data: Bytes, picks: seq<Pick>)
    requires PicksOk(data, picks)
    ensures AllWriteRight(Web, data, picks)
  {
    hide ApplyEncSpec;
    assert forall k | 0 <= k < |picks| :: PickOk(data, picks[k]);
  }

  lemma {:induction false} SpanHasSlot(slots: seq<Slot>, i: int) returns (k: nat)
    requires Covered(SlotSpans(slots, false), i)
    ensures k < |slots| && slots[k].offset <= i < slots[k].offset + slots[k].length
  {
    SlotSpansStep(slots, false, i);
    if !slots[0].compressed && slots[0].offset <= i < slots[0].offset + slots[0].length {
      k := 0;
    } else {
      k := SpanHasSlot(slots[1..], i);
      k := k + 1;
    }
  }

  /** The file with the bytes of every pick zeroed. */
  ghost function Blanked(data: Bytes, picks: seq<Pick>): (out: Bytes)
    ensures |out| == |data|
  {
    ZeroedOn(data, SlotSpans(PickSlots(picks), false))
  }

  /** The recipe gives the blanked file, which differs from the file only where some pick will be written. */
  lemma SkeletonIsRestorable(data: Bytes, picks: seq<Pick>)
    requires PicksOk(data, picks)
    ensures AllInFile(PickSlots(picks), |data|)
    ensures var slots := PickSlots(picks);
      ZeroedOn(SkeletonOf(data, slots), ZeroSpans(slots, |data|)) == Blanked(data, picks)
    ensures RestorableBy(data, Blanked(data, picks), picks)
  {
    var slots := PickSlots(picks);
    forall k | 0 <= k < |slots|
      ensures InFile(slots[k], |data|) && !slots[k].compressed
    {
      assert PickOk(data, picks[k]);
    }
    SkeletonWithoutCompressed(data, slots);
    var out := Blanked(data, picks);
    assert ZeroedOn(out, SlotSpans(slots, false)) == out;
    forall i | 0 <= i < |data| && out[i] != data[i]
      ensures exists k :: 0 <= k < |picks| && InPick(picks[k], i)
    {
      var k := SpanHasSlot(slots, i);
      assert InPick(picks[k], i);
    }
  }

  // ---- The whole build ----

  datatype Built = Built(root: Cid, store: Store, index: Index)

  function StreamedSlots(picks: seq<Pick>): seq<StreamedSlot> {
    seq(|picks|, k requires 0 <= k < |picks| => StreamedSlot(picks[k].slot.offset, picks[k].slot.index))
  }

  /** What a streamed build stores: the blanked file, every pick's PCM, and the plan. */
  ghost predicate BuiltOk(f: Foreign, data: Bytes, picks: seq<Pick>, tables: Option<SeekTables>, version: nat, b: Built) {
    && Addressed(f, b.store)
    && (var m := ManifestAt(f, b.store, b.root, version);
        && m.Some? && IndexOf(f, b.store, m.value) == Some(b.index)
        && Rebuild.SkeletonAt(b.store, m.value) == Some(Blanked(data, picks)))
    && RefsStored(f, b.store, picks, b.index.samples, version)
    && b.index.plan == PlanOf(tables, StreamedSlots(picks))
  }

  /** A root whose picks' PCM is all kept denotes what a client writes over the blanked file. */
  lemma BuiltDenotesWrites(
    f: Foreign, data: Bytes, picks: seq<Pick>, tables: Option<SeekTables>, version: nat, b: Built, client: Client)
    requires BuiltOk(f, data, picks, tables, version, b) && AllKept(f, picks, version) && PicksFit(|data|, picks)
    ensures RebuildFrom(f, b.store, b.root, client, version) == Some(WrittenBack(client, Blanked(data, picks), picks))
  {
    hide WriteSamples, ManifestAt, IndexOf, PlanOf, RefsOk, RefsStored, Rebuild.SkeletonAt, WrittenBack;
    StoredAreOk(f, b.store, picks, b.index.samples, version);
    TableWritesBack(f, b.store, client, Blanked(data, picks), picks, b.index.samples);
  }

  /** That is the file, for a client whose transform writes every pick right. */
  lemma BuiltDenotesFile(
    f: Foreign, data: Bytes, picks: seq<Pick>, tables: Option<SeekTables>, version: nat, b: Built, client: Client)
    requires BuiltOk(f, data, picks, tables, version, b) && AllKept(f, picks, version)
    requires AllWriteRight(client, data, picks)
    ensures RebuildFrom(f, b.store, b.root, client, version) == Some(data)
  {
    hide BuiltOk, AllKept, RebuildFrom, WrittenBack, Blanked, WritesRight;
    assert PicksOk(data, picks);
    SkeletonIsRestorable(data, picks);
    WritingRestores(client, data, Blanked(data, picks), picks);
    BuiltDenotesWrites(f, data, picks, tables, version, b, client);
  }

  /** The manifest block, the index spilled to a block of its own when the manifest gets too big. */
  method AddManifest(f: Foreign, store: Store, version: nat, len: nat, recipe: Recipe, cids: seq<Cid>, index: Index)
    returns (root: Cid, store': Store)
    requires Lawful(f) && Addressed(f, store) && ExactTimes(f, index.plan.orderSeconds)
    ensures Addressed(f, store') && Extends(store, store')
    ensures var m := ManifestAt(f, store', root, version);
      && m.Some? && m.value.originalLength == len && m.value.skeletonChunks == cids
      && m.value.layout == recipe.layout && IndexOf(f, store', m.value) == Some(index)
  {
    var m := Manifest(version, len, cids, recipe.layout, Some(index), None);
    var bytes := f.encode(m);
    store' := store;
    if |bytes| > INDEX_SPILL_BYTES {
      var ixBytes := f.encode(IndexBlock(index));
      var ixCid, ixStore := AddBlock(f, store', DAG_CBOR_CODE, ixBytes);
      m := Manifest(version, len, cids, recipe.layout, None, Some(ixCid));
      bytes := f.encode(m);
      root, store' := AddBlock(f, ixStore, DAG_CBOR_CODE, bytes);
      assert NodeAt(f, store', ixCid) == Some(IndexBlock(index));
    } else {
      root, store' := AddBlock(f, store', DAG_CBOR_CODE, bytes);
    }
    assert NodeAt(f, store', root) == Some(m);
  }

  lemma PlanTimes(tables: Option<SeekTables>, streamed: seq<StreamedSlot>)
    ensures PlanOf(tables, streamed).orderSeconds == if tables.Some? then tables.value.orderSeconds else []
  {
  }

  method AddSkeleton(f: Foreign, store: Store, data: Bytes, picks: seq<Pick>, cdc: CdcConfig)
    returns (recipe: Recipe, cids: seq<Cid>, store': Store)
    requires Lawful(f) && Addressed(f, store) && cdc.max > 0 && PicksOk(data, picks)
    ensures Addressed(f, store') && Extends(store, store') && Gather(store', cids) == Some(recipe.chunks)
    ensures Assemble(recipe.chunks, recipe.layout) == Ok(Blanked(data, picks))
  {
    hide Lawful, Addressed, Assemble, ZeroedOn, SkeletonOf, ZeroSpans, Gather, PicksOk, Blanked;
    SkeletonIsRestorable(data, picks);
    var skeletonBytes;
    recipe, skeletonBytes := SkeletonRecipe(data, PickSlots(picks), cdc);
    cids, store' := AddChunks(f, store, recipe.chunks);
  }

  method BuildStreamed(f: Foreign, data: Bytes, picks: seq<Pick>, cdc: CdcConfig, tables: Option<SeekTables>, version: nat)
    returns (b: Built)
    requires Lawful(f) && cdc.max > 0 && PicksOk(data, picks)
    requires tables.Some? ==> ExactTimes(f, tables.value.orderSeconds)
    ensures BuiltOk(f, data, picks, tables, version, b)
  {
    hide Lawful, PicksOk, RefsStored, Assemble, Blanked, Gather, ManifestAt, IndexOf, PlanOf;
    var plan := BuildPlan(tables, StreamedSlots(picks));
    PlanTimes(tables, StreamedSlots(picks));
    var refs, store1 := AddSamples(f, map[], picks, cdc, version);
    var recipe, cids, store2 := AddSkeleton(f, store1, data, picks, cdc);
    var index := Index(refs, plan);
    var root, store3 := AddManifest(f, store2, version, |data|, recipe, cids, index);
    RefsExtend(f, store1, store2, picks, refs, version);
    RefsExtend(f, store2, store3, picks, refs, version);
    GatherExtends(store2, store3, cids);
    b := Built(root, store3, index);
  }

  /**
   * `buildDagV3` / `buildDagV4`: any dumps, right or wrong, give a root. It denotes the file: always in
   * version 3, and in version 4 when every pick's PCM is kept.
   */
  method BuildDag(f: Foreign, data: Bytes, slots: seq<Slot>, decoded: seq<Dump>, cdc: CdcConfig, tables: Option<SeekTables>, version: nat)
    returns (r: Result<Built>, ghost picks: seq<Pick>)
    requires Lawful(f) && AllInFile(slots, |data|) && cdc.max > 0 && (version == 3 || version == 4)
    requires tables.Some? ==> ExactTimes(f, tables.value.orderSeconds)
    ensures r.Err? <==> !NoneCompressed(slots)
    ensures r.Ok? ==> PicksFor(data, slots, decoded, picks) && PicksOk(data, picks)
    ensures r.Ok? ==> BuiltOk(f, data, picks, tables, version, r.value)
    ensures r.Ok? && (version == 4 ==> AllKept(f, picks, 4)) ==>
      RebuildFrom(f, r.value.store, r.value.root, Web, version) == Some(data)
  {
    hide Lawful, BuiltOk, PicksFor, PicksOk, AllWriteRight, RebuildFrom, Kept;
    if k :| 0 <= k < |slots| && slots[k].compressed {
      return Err(CompressedSample), [];
    }
    var chosen := SelectStreamed(data, slots, decoded);
    var b := BuildStreamed(f, data, chosen, cdc, tables, version);
    picks := chosen;
    r := Ok(b);
    WebWritesRight(data, picks);
    if version == 4 ==> AllKept(f, picks, 4) {
      KeptInVersion3(f, picks);
      BuiltDenotesFile(f, data, picks, tables, version, b, Web);
    }
  }

  lemma KeptInVersion3(f: Foreign, picks: seq<Pick>)
    ensures AllKept(f, picks, 3)
  {
  }

  /**
   * Build, then reassemble through any getter: with verification on, the result is a failure or the
   * original file; a getter that serves the built blocks gives the original file. This for a client
   * whose transform writes the picks right, which the web client's does for any picks.
   */
  method BuildThenReassemble(
    f: Foreign, data: Bytes, slots: seq<Slot>, decoded: seq<Dump>, cdc: CdcConfig, tables: Option<SeekTables>,
    version: nat, serve: Store -> Getter, client: Client, verify: bool)
    returns (r: Result<Bytes>, ghost picks: seq<Pick>)
    requires Lawful(f) && AllInFile(slots, |data|) && cdc.max > 0 && (version == 3 || version == 4)
    requires tables.Some? ==> ExactTimes(f, tables.value.orderSeconds)
    ensures NoneCompressed(slots) ==> PicksFor(data, slots, decoded, picks)
    ensures verify && r.Ok? && Restorable(f, client, data, picks, version) ==> r.value == data
    ensures NoneCompressed(slots) && (forall store :: Honest(serve(store), store)) && Restorable(f, client, data, picks, version)
      ==> r == Ok(data)
  {
    hide Lawful, RebuildFrom, PicksFor, BuiltOk, PicksOk, AllWriteRight, Kept;
    var built;
    built, picks := BuildDag(f, data, slots, decoded, cdc, tables, version);
    if built.Err? {
      return Err(built.error), picks;
    }
    var b := built.value;
    AddressedBlocks(f, data, picks, tables, version, b);
    r := Reassemble(f, serve(b.store), b.root, client, verify, version, b.store);
    if Restorable(f, client, data, picks, version) {
      WebWritesRight(data, picks);
      KeptInVersion3(f, picks);
      BuiltDenotesFile(f, data, picks, tables, version, b, client);
    }
  }

  /** The web client and version 3: nothing to meet, for any dumps and any slots in the file. */
  method BuildThenReassembleWeb(
    f: Foreign, data: Bytes, slots: seq<Slot>, decoded: seq<Dump>, cdc: CdcConfig, tables: Option<SeekTables>,
    serve: Store -> Getter, verify: bool)
    returns (r: Result<Bytes>)
    requires Lawful(f) && AllInFile(slots, |data|) && cdc.max > 0
    requires tables.Some? ==> ExactTimes(f, tables.value.orderSeconds)
    ensures verify && r.Ok? ==> r.value == data
    ensures NoneCompressed(slots) && (forall store :: Honest(serve(store), store)) ==> r == Ok(data)
  {
    hide Lawful, PicksFor;
    ghost var picks;
    r, picks := BuildThenReassemble(f, data, slots, decoded, cdc, tables, 3, serve, Web, verify);
  }

  /** What a build and a client have to meet for the file to come back. */
  ghost predicate Restorable(f: Foreign, client: Client, data: Bytes, picks: seq<Pick>, version: nat) {
    && (client == Desktop ==> AllWriteRight(Desktop, data, picks))
    && (version == 4 ==> AllKept(f, picks, 4))
  }

  lemma AddressedBlocks(f: Foreign, data: Bytes, picks: seq<Pick>, tables: Option<SeekTables>, version: nat, b: Built)
    requires BuiltOk(f, data, picks, tables, version, b)
    ensures Addressed(f, b.store)
  {
  }
}
