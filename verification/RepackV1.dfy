/**
 * The v1 root: sample regions carved out of the file, everything else concatenated as the skeleton,
 * both content-chunked; and the splice that puts them back.
 */
module RepackV1 {
  import opened Basics
  import opened Cdc
  import opened CdcLaws
  import opened Regions
  import opened Sorting
  import opened Plan
  import opened Blocks
  import opened Recipe
  import opened Rebuild

  // ---- The skeleton ----

  /** The bytes from `from` on that lie in no region. */
  function SkeletonFrom(data: Bytes, regions: seq<Region>, from: nat): Bytes
    requires Partition(regions, |data|) && from <= |data| && (regions != [] ==> from <= regions[0].offset)
    decreases |regions|
  {
    if regions == [] then data[from..]
    else data[from..regions[0].offset] + SkeletonFrom(data, regions[1..], End(regions[0]))
  }

  function TotalLength(regions: seq<Region>): int {
    if regions == [] then 0 else regions[0].length + TotalLength(regions[1..])
  }

  lemma {:induction false} SkeletonLength(data: Bytes, regions: seq<Region>, from: nat)
    requires Partition(regions, |data|) && from <= |data| && (regions != [] ==> from <= regions[0].offset)
    ensures |SkeletonFrom(data, regions, from)| == |data| - from - TotalLength(regions)
    decreases |regions|
  {
    if regions != [] {
      SkeletonLength(data, regions[1..], End(regions[0]));
    }
  }

  /** Copy `b` in at the cursor. */
  method AppendAt(buf: array<byte>, w: nat, b: Bytes) returns (w': nat)
    requires w + |b| <= buf.Length
    modifies buf
    ensures w' == w + |b| && buf[..w'] == old(buf[..w]) + b
  {
    var ok := SetAt(buf, b, w);
    w' := w + |b|;
  }

  lemma SkeletonStep(data: Bytes, regions: seq<Region>, from: nat, done: Bytes)
    requires Partition(regions, |data|) && regions != [] && from <= regions[0].offset
    ensures Partition(regions[1..], |data|)
    ensures var r := regions[0];
      done + SkeletonFrom(data, regions, from) ==
      (done + data[from..r.offset]) + SkeletonFrom(data, regions[1..], End(r))
      && |done + data[from..r.offset]| <= |done + SkeletonFrom(data, regions, from)|
  {
    var r := regions[0];
    AppendTwice(done, data[from..r.offset], SkeletonFrom(data, regions[1..], End(r)));
  }

  lemma AppendTwice(a: Bytes, b: Bytes, c: Bytes)
    ensures a + (b + c) == (a + b) + c
  {
  }

  lemma SkeletonEnd(data: Bytes, from: nat)
    requires from <= |data|
    ensures SkeletonFrom(data, [], from) == data[from..]
  {
  }

  /** The program's skeleton builder: a buffer of the exact size, filled gap by gap. */
  method BuildSkeleton(data: Bytes, regions: seq<Region>) returns (skel: Bytes)
    requires Partition(regions, |data|)
    ensures skel == SkeletonFrom(data, regions, 0)
  {
    hide SkeletonFrom;
    var skelLen := SkeletonSize(data, regions);
    var buf := new byte[skelLen](_ => 0);
    var w: nat, prevEnd: nat, todo := 0, 0, regions;
    ghost var whole := SkeletonFrom(data, regions, 0);
    assert buf[..0] + whole == whole;
    while todo != []
      invariant Partition(todo, |data|) && prevEnd <= |data| && (todo != [] ==> prevEnd <= todo[0].offset)
      invariant w <= buf.Length == |whole| && buf[..w] + SkeletonFrom(data, todo, prevEnd) == whole
      decreases |todo|
    {
      var r := todo[0];
      SkeletonStep(data, todo, prevEnd, buf[..w]);
      w := AppendAt(buf, w, data[prevEnd..r.offset]);
      prevEnd, todo := r.offset + r.length, todo[1..];
    }
    SkeletonEnd(data, prevEnd);
    w := AppendAt(buf, w, data[prevEnd..]);
    skel := buf[..];
    assert skel == buf[..w];
  }

  method SkeletonSize(data: Bytes, regions: seq<Region>) returns (n: nat)
    requires Partition(regions, |data|)
    ensures n == |SkeletonFrom(data, regions, 0)|
  {
    SkeletonLength(data, regions, 0);
    var len := |data|;
    for k := 0 to |regions|
      invariant len - TotalLength(regions[k..]) == |data| - TotalLength(regions)
    {
      assert regions[k..][1..] == regions[k + 1..];
      len := len - regions[k].length;
    }
    n := len;
  }

  // ---- What a v1 root denotes ----

  function ManifestV1At(f: Foreign, store: Store, root: Cid): (r: Option<Node>)
    ensures r.Some? ==> r.value.ManifestV1?
  {
    var node := NodeAt(f, store, root);
    if node.Some? && node.value.ManifestV1? then node else None
  }

  function RootPcm(f: Foreign, store: Store, cid: Cid): Option<Bytes> {
    var node := NodeAt(f, store, cid);
    if node.None? || !node.value.PcmRoot? then None
    else
      var parts := Gather(store, node.value.chunks);
      if parts.Some? then Some(Concat(parts.value)) else None
  }

  /** The file being filled, how much of the skeleton is used, and where the next gap starts. */
  datatype SpliceState = SpliceState(out: Bytes, cur: nat, prev: nat)

  /** One sample of the splice: the skeleton gap before it, then its PCM. */
  function SpliceOne(st: SpliceState, skel: Bytes, e: SampleEntry, pcm: Bytes): (r: Option<SpliceState>)
    ensures r.Some? ==> |r.value.out| == |st.out|
  {
    if e.offset < st.prev || st.cur + (e.offset - st.prev) > |skel| || e.offset + |pcm| > |st.out| then None
    else
      var gap := skel[st.cur..st.cur + (e.offset - st.prev)];
      Some(SpliceState(Splice(Splice(st.out, st.prev, gap), e.offset, pcm), st.cur + |gap|, e.offset + e.length))
  }

  /** What is left of the skeleton must fill the file exactly. */
  function SpliceTail(st: SpliceState, skel: Bytes): Option<Bytes> {
    if st.cur <= |skel| && st.prev + (|skel| - st.cur) == |st.out| then Some(Splice(st.out, st.prev, skel[st.cur..]))
    else None
  }

  function SpliceAll(f: Foreign, store: Store, st: SpliceState, skel: Bytes, entries: seq<SampleEntry>): Option<Bytes>
    decreases |entries|
  {
    if entries == [] then SpliceTail(st, skel)
    else
      var pcm := RootPcm(f, store, entries[0].pcmRoot);
      if pcm.None? then None
      else
        var st' := SpliceOne(st, skel, entries[0], pcm.value);
        if st'.None? then None else SpliceAll(f, store, st'.value, skel, entries[1..])
  }

  function Blank(len: nat): SpliceState { SpliceState(Zeros(len), 0, 0) }

  function RebuildV1From(f: Foreign, store: Store, root: Cid): Option<Bytes> {
    var m := ManifestV1At(f, store, root);
    if m.None? then None
    else
      var parts := Gather(store, m.value.skeletonChunks);
      if parts.None? then None
      else SpliceAll(f, store, Blank(m.value.originalLength), Concat(parts.value), m.value.entries)
  }

  // ---- The reader ----

  method FetchRootPcm(f: Foreign, get: Getter, n: nat, cid: Cid, verify: bool, ghost store: Store)
    returns (r: Result<Bytes>, n': nat)
    ensures Agrees(r, RootPcm(f, store, cid), Trusted(f, store, verify), Served(f, store, get), ServesOnly(f, store, get))
  {
    hide Trusted, Served, ServesOnly;
    OnlyIsServed(f, store, get);
    var bytes := FetchVerified(f, get, n, cid, verify, store);
    if bytes.Err? {
      return Err(bytes.error), n + 1;
    }
    var node := f.decode(bytes.value);
    if node.None? || !node.value.PcmRoot? {
      return Err(Undecodable), n + 1;
    }
    var parts;
    parts, n' := FetchAll(f, get, n + 1, node.value.chunks, verify, store);
    if parts.Err? {
      return Err(parts.error), n';
    }
    var pcm := ConcatAll(parts.value);
    return Ok(pcm), n';
  }

  method FetchManifestV1(f: Foreign, get: Getter, root: Cid, verify: bool, ghost store: Store)
    returns (r: Result<Node>)
    ensures r.Ok? ==> r.value.ManifestV1?
    ensures Agrees(r, ManifestV1At(f, store, root), Trusted(f, store, verify), Served(f, store, get), ServesOnly(f, store, get))
  {
    hide Trusted, Served, ServesOnly;
    OnlyIsServed(f, store, get);
    var bytes := FetchVerified(f, get, 0, root, verify, store);
    if bytes.Err? {
      return Err(bytes.error);
    }
    var node := f.decode(bytes.value);
    if node.None? || !node.value.ManifestV1? {
      return Err(Undecodable);
    }
    return Ok(node.value);
  }

  /** Skeleton gaps and sample PCM, copied into place in file order. */
  method SpliceSamples(f: Foreign, get: Getter, n0: nat, len: nat, skel: Bytes, entries: seq<SampleEntry>, verify: bool, ghost store: Store)
    returns (r: Result<Bytes>)
    ensures Agrees(r, SpliceAll(f, store, Blank(len), skel, entries), Trusted(f, store, verify), Served(f, store, get), ServesOnly(f, store, get))
  {
    hide Trusted, Served, ServesOnly, RootPcm, SpliceOne, SpliceTail;
    OnlyIsServed(f, store, get);
    var out := new byte[len](_ => 0);
    var n, cur: nat, prev: nat, todo := n0, 0, 0, entries;
    ghost var whole := SpliceAll(f, store, Blank(len), skel, entries);
    ghost var trust := Trusted(f, store, verify) || Served(f, store, get);
    ghost var exact := ServesOnly(f, store, get);
    assert out[..] == Zeros(len);
    while todo != []
      invariant (trust && whole.Some?) || exact ==> SpliceAll(f, store, SpliceState(out[..], cur, prev), skel, todo) == whole
      decreases |todo|
    {
      var pcm;
      pcm, n := FetchRootPcm(f, get, n, todo[0].pcmRoot, verify, store);
      if pcm.Err? {
        return Err(pcm.error);
      }
      var ok;
      ok, cur, prev := CopyEntry(out, skel, cur, prev, todo[0], pcm.value);
      if !ok {
        return Err(OutOfRange);
      }
      todo := todo[1..];
    }
    var ok := CopyTail(out, skel, cur, prev);
    return if ok then Ok(out[..]) else Err(OutOfRange);
  }

  method CopyEntry(out: array<byte>, skel: Bytes, cur: nat, prev: nat, e: SampleEntry, pcm: Bytes)
    returns (ok: bool, cur': nat, prev': nat)
    modifies out
    ensures var st' := SpliceOne(SpliceState(old(out[..]), cur, prev), skel, e, pcm);
      ok == st'.Some? && (ok ==> st'.value == SpliceState(out[..], cur', prev'))
  {
    if e.offset < prev || cur + (e.offset - prev) > |skel| || e.offset + |pcm| > out.Length {
      return false, cur, prev;
    }
    var gap := skel[cur..cur + (e.offset - prev)];
    var gapOk := SetAt(out, gap, prev);
    ok := SetAt(out, pcm, e.offset);
    cur', prev' := cur + |gap|, e.offset + e.length;
  }

  method CopyTail(out: array<byte>, skel: Bytes, cur: nat, prev: nat) returns (ok: bool)
    modifies out
    ensures var r := SpliceTail(SpliceState(old(out[..]), cur, prev), skel);
      ok == r.Some? && (ok ==> r.value == out[..])
  {
    if cur > |skel| || prev + (|skel| - cur) != out.Length {
      return false;
    }
    ok := SetAt(out, skel[cur..], prev);
  }

  /** `reassemble`: whole-file byte-exact reading of a v1 root. */
  method ReassembleV1(f: Foreign, get: Getter, root: Cid, verify: bool, ghost store: Store) returns (r: Result<Bytes>)
    ensures Agrees(r, RebuildV1From(f, store, root), Trusted(f, store, verify), Served(f, store, get), ServesOnly(f, store, get))
  {
    hide Trusted, Served, ServesOnly, ManifestV1At, SpliceAll;
    OnlyIsServed(f, store, get);
    var m := FetchManifestV1(f, get, root, verify, store);
    if m.Err? {
      return Err(m.error);
    }
    var parts, n := FetchAll(f, get, 1, m.value.skeletonChunks, verify, store);
    if parts.Err? {
      return Err(parts.error);
    }
    var skel := ConcatAll(parts.value);
    r := SpliceSamples(f, get, n, m.value.originalLength, skel, m.value.entries, verify, store);
  }

  // ---- The builder ----

  ghost predicate EntryOk(f: Foreign, store: Store, data: Bytes, r: Region, e: SampleEntry) {
    && InBounds(r, |data|) && e.offset == r.offset && e.length == r.length
    && RootPcm(f, store, e.pcmRoot) == Some(data[r.offset..End(r)])
  }

  ghost predicate EntriesOk(f: Foreign, store: Store, data: Bytes, regions: seq<Region>, entries: seq<SampleEntry>) {
    |entries| == |regions| && forall k :: 0 <= k < |entries| ==> EntryOk(f, store, data, regions[k], entries[k])
  }

  lemma EntriesExtend(f: Foreign, a: Store, b: Store, data: Bytes, regions: seq<Region>, entries: seq<SampleEntry>)
    requires EntriesOk(f, a, data, regions, entries) && Extends(a, b)
    ensures EntriesOk(f, b, data, regions, entries)
  {
    forall k | 0 <= k < |entries|
      ensures EntryOk(f, b, data, regions[k], entries[k])
    {
      assert EntryOk(f, a, data, regions[k], entries[k]);
      var node := NodeAt(f, a, entries[k].pcmRoot).value;
      GatherExtends(a, b, node.chunks);
    }
  }

  method AddEntry(f: Foreign, store: Store, data: Bytes, r: Region, cdc: CdcConfig) returns (e: SampleEntry, store': Store)
    requires Lawful(f) && Addressed(f, store) && cdc.max > 0 && InBounds(r, |data|)
    ensures Addressed(f, store') && Extends(store, store') && EntryOk(f, store', data, r, e)
  {
    hide Chunks, Gather;
    var pcm := data[r.offset..r.offset + r.length];
    var cids, store1 := ChunkToCids(f, store, pcm, cdc);
    ChunksConcat(pcm, cdc);
    var bytes := f.encode(PcmRoot(cids, r.length));
    var root;
    root, store' := AddBlock(f, store1, DAG_CBOR_CODE, bytes);
    assert NodeAt(f, store', root) == Some(PcmRoot(cids, r.length));
    GatherExtends(store1, store', cids);
    e := SampleEntry(r.offset, r.length, root);
  }

  method AddEntries(f: Foreign, store: Store, data: Bytes, regions: seq<Region>, cdc: CdcConfig)
    returns (entries: seq<SampleEntry>, store': Store)
    requires Lawful(f) && Addressed(f, store) && cdc.max > 0 && Partition(regions, |data|)
    ensures Addressed(f, store') && Extends(store, store') && EntriesOk(f, store', data, regions, entries)
  {
    hide Lawful, Addressed, EntryOk;
    entries, store' := [], store;
    for k := 0 to |regions|
      invariant Addressed(f, store') && Extends(store, store') && EntriesOk(f, store', data, regions[..k], entries)
    {
      ghost var before := store';
      var e;
      e, store' := AddEntry(f, store', data, regions[k], cdc);
      EntriesExtend(f, before, store', data, regions[..k], entries);
      entries := entries + [e];
    }
    assert regions[..|regions|] == regions;
  }

  /** With `prev` bytes of the file in place and the rest of the skeleton at `cur`, splicing completes the file. */
  lemma {:induction false} SplicingRestores(f: Foreign, store: Store, data: Bytes, st: SpliceState, skel: Bytes, regions: seq<Region>, entries: seq<SampleEntry>)
    requires Partition(regions, |data|) && EntriesOk(f, store, data, regions, entries)
    requires st.prev <= |data| == |st.out| && (regions != [] ==> st.prev <= regions[0].offset)
    requires st.out[..st.prev] == data[..st.prev]
    requires st.cur <= |skel| && skel[st.cur..] == SkeletonFrom(data, regions, st.prev)
    ensures SpliceAll(f, store, st, skel, entries) == Some(data)
    decreases |regions|
  {
    hide RootPcm, SpliceOne;
    if regions == [] {
      assert Splice(st.out, st.prev, skel[st.cur..]) == data;
    } else {
      var r, e := regions[0], entries[0];
      assert EntryOk(f, store, data, r, e);
      GapOfSkeleton(skel, st.cur, data[st.prev..r.offset], SkeletonFrom(data, regions[1..], End(r)));
      var st' := OnePlaced(data, st, skel, r, e);
      assert EntriesOk(f, store, data, regions[1..], entries[1..]) by {
        assert forall k :: 0 <= k < |entries[1..]| ==> entries[1..][k] == entries[k + 1] && regions[1..][k] == regions[k + 1];
      }
      SplicingRestores(f, store, data, st', skel, regions[1..], entries[1..]);
    }
  }

  lemma GapOfSkeleton(skel: Bytes, cur: nat, gap: Bytes, rest: Bytes)
    requires cur <= |skel| && skel[cur..] == gap + rest
    ensures cur + |gap| <= |skel| && skel[cur..cur + |gap|] == gap && skel[cur + |gap|..] == rest
  {
    assert skel[cur..][..|gap|] == skel[cur..cur + |gap|];
    assert skel[cur..][|gap|..] == skel[cur + |gap|..];
  }

  lemma OnePlaced(data: Bytes, st: SpliceState, skel: Bytes, r: Region, e: SampleEntry) returns (st': SpliceState)
    requires InBounds(r, |data|) && e.offset == r.offset && e.length == r.length
    requires st.prev <= r.offset && |st.out| == |data| && st.out[..st.prev] == data[..st.prev]
    requires st.cur + (r.offset - st.prev) <= |skel|
    requires skel[st.cur..st.cur + (r.offset - st.prev)] == data[st.prev..r.offset]
    ensures SpliceOne(st, skel, e, data[r.offset..End(r)]) == Some(st')
    ensures st'.prev == End(r) && st'.cur == st.cur + (r.offset - st.prev)
    ensures |st'.out| == |data| && st'.out[..End(r)] == data[..End(r)]
  {
    var out := Splice(Splice(st.out, st.prev, data[st.prev..r.offset]), r.offset, data[r.offset..End(r)]);
    st' := SpliceState(out, st.cur + (r.offset - st.prev), End(r));
    assert forall i :: 0 <= i < st.prev ==> st.out[i] == st.out[..st.prev][i] && data[i] == data[..st.prev][i];
  }

  datatype BuiltV1 = BuiltV1(root: Cid, store: Store, segment0: seq<nat>, seek: Option<Plan>)

  /** Sample indices in place of slots: the plan tables key on each region's own offset. */
  function EntrySlots(entries: seq<SampleEntry>): seq<StreamedSlot> {
    seq(|entries|, k requires 0 <= k < |entries| => StreamedSlot(entries[k].offset, k))
  }

  /** The optional seek tables, by sample index: absent unless some checkpoint resolves. */
  method SeekHints(tables: Option<SeekTables>, entries: seq<SampleEntry>) returns (segment0: seq<nat>, seek: Option<Plan>)
    ensures entries == [] || tables.None? ==> segment0 == [] && seek == None
    ensures entries != [] && tables.Some? ==> segment0 == ToSlots(EntrySlots(entries), tables.value.segment0Offsets)
    ensures entries != [] && tables.Some? ==>
      var cps := FilterMap(tables.value.checkpoints, Resolver(EntrySlots(entries)));
      seek == if cps == [] then None else Some(Plan(tables.value.orderSeconds, cps))
  {
    segment0, seek := [], None;
    if entries != [] && tables.Some? {
      var slots := EntrySlots(entries);
      var idx := IndexByOffset(slots);
      segment0 := SlotsOf(idx, tables.value.segment0Offsets, slots);
      // the v1 tables have no segment-0 fallback for the checkpoints
      var plan := BuildPlan(Some(tables.value.(segment0Offsets := [])), slots);
      assert ToSlots(slots, []) == [];
      if plan.checkpoints != [] {
        seek := Some(plan);
      }
    }
  }

  /** `buildFromRegions`: the root denotes the file, for any partition. */
  method BuildFromRegions(f: Foreign, data: Bytes, regions: seq<Region>, cdc: CdcConfig, tables: Option<SeekTables>)
    returns (b: BuiltV1)
    requires Lawful(f) && cdc.max > 0 && Partition(regions, |data|)
    requires tables.Some? ==> ExactTimes(f, tables.value.orderSeconds)
    ensures Addressed(f, b.store) && RebuildV1From(f, b.store, b.root) == Some(data)
    ensures var m := ManifestV1At(f, b.store, b.root);
      && m.Some? && m.value.segment0 == b.segment0 && m.value.seek == b.seek
      && EntriesOk(f, b.store, data, regions, m.value.entries)
  {
    hide SpliceAll, EntriesOk, Gather, SkeletonFrom, RootPcm, PlanOf;
    var entries, store1 := AddEntries(f, map[], data, regions, cdc);
    var skel := BuildSkeleton(data, regions);
    var cids, store2 := ChunkToCids(f, store1, skel, cdc);
    ChunksConcat(skel, cdc);
    var segment0, seek := SeekHints(tables, entries);
    var m := ManifestV1(|data|, cids, entries, segment0, seek);
    var bytes := f.encode(m);
    var root, store3 := AddBlock(f, store2, DAG_CBOR_CODE, bytes);
    assert NodeAt(f, store3, root) == Some(m);
    GatherExtends(store2, store3, cids);
    EntriesExtend(f, store1, store2, data, regions, entries);
    EntriesExtend(f, store2, store3, data, regions, entries);
    assert skel[0..] == skel && Zeros(|data|)[..0] == data[..0];
    SplicingRestores(f, store3, data, Blank(|data|), skel, regions, entries);
    b := BuiltV1(root, store3, segment0, seek);
  }

  /** Whatever regions an extractor reports, building and reassembling gives failure or the file. */
  method BuildThenReassembleV1(f: Foreign, data: Bytes, raw: seq<Region>, cdc: CdcConfig, tables: Option<SeekTables>, serve: Store -> Getter, verify: bool)
    returns (r: Result<Bytes>)
    requires Lawful(f) && cdc.max > 0
    requires tables.Some? ==> ExactTimes(f, tables.value.orderSeconds)
    ensures verify && r.Ok? ==> r.value == data
    ensures (forall store :: Honest(serve(store), store)) ==> r == Ok(data)
  {
    hide Lawful, RebuildV1From;
    var regions := SampleRegions(raw, |data|);
    var b := BuildFromRegions(f, data, regions, cdc, tables);
    r := ReassembleV1(f, serve(b.store), b.root, verify, b.store);
  }
}
