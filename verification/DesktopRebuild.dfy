/**
 * The desktop client's rebuild of a built root. Its sample transform differs from the baker's on partial
 * frames, so it gives the file back for some shapes of sample and not for others; here is for which.
 */
module DesktopRebuild {
  import opened Basics
  import opened Cdc
  import opened Skeleton
  import opened SkeletonLaws
  import opened SampleTransform
  import opened TransformLaws
  import opened Plan
  import opened Blocks
  import opened Rebuild
  import opened Repack

  /**
   * Samples the desktop client writes back right whatever is dumped for them: not stereo, of whole frames,
   * or so short that the baker never picks a mask that splits the channels.
   */
  predicate SplitSafe(len: nat, bitDepth: int, channels: int) {
    !Stereo(channels) || WholePairs(len, WidthOf(bitDepth)) || len == 1 || (len == 3 && WidthOf(bitDepth) == 2)
  }

  ghost predicate AllSplitSafe(slots: seq<Slot>) {
    forall k :: 0 <= k < |slots| ==> SplitSafe(slots[k].length, slots[k].bitDepth, slots[k].channels)
  }

  // ---- Where the baker never picks a splitting mask ----

  /** On these lengths splitting gives nothing that an unsplit mask does not. */
  lemma ShortUnsplit(enc: nat, d: Bytes, bitDepth: int, channels: int) returns (plain: nat)
    requires 4 <= enc < 8 && Stereo(channels) && (|d| == 1 || (|d| == 3 && WidthOf(bitDepth) == 2))
    ensures plain < 4
    ensures ApplyEncSpec(plain, d, bitDepth, channels) == ApplyEncSpec(enc, d, bitDepth, channels)
  {
    hide ApplyStages;
    var w := WidthOf(bitDepth);
    if |d| == 1 {
      plain := enc - 4;
      assert HasSign(plain) == HasSign(enc) && HasDelta(plain) == HasDelta(enc) && !HasDeint(plain);
      OneByteUnsplit(HasSign(enc), HasDelta(enc), d, w);
    } else {
      plain := if HasSign(enc) then 3 else 2;
      ThreeBytesUnsplit(HasSign(enc), HasDelta(enc), d);
    }
  }

  lemma OneByteUnsplit(sign: bool, delta: bool, d: Bytes, w: Width)
    requires |d| == 1
    ensures ApplyStages(sign, delta, true, d, w) == ApplyStages(sign, delta, false, d, w)
  {
    hide Deint, SignFlip, DeltaStage;
    OneByteStays(d, w);
    OneByteDelta(if sign then SignFlip(d, w) else d, w);
  }

  lemma OneByteDelta(d: Bytes, w: Width)
    requires |d| == 1
    ensures DeltaStage(d, w, true) == DeltaStage(d, w, false)
  {
    hide DeltaChannel;
    assert d[..1] == d && Zeros(0) == [];
  }

  lemma ThreeBytesUnsplit(sign: bool, delta: bool, d: Bytes)
    requires |d| == 3
    ensures ApplyStages(sign, delta, true, d, 2) == ApplyStages(sign, true, false, d, 2)
  {
    hide DeltaChannel;
    var split: Bytes := [d[0], d[1], 0];
    assert Deint(d, 2) == split;
    var x := if sign then SignFlip(d, 2) else d;
    var y := if sign then SignFlip(split, 2) else split;
    assert y == [x[0], x[1], 0];
    FirstWordAlone(x);
    FirstWordAlone(y);
    assert y[..2] == [x[0], x[1]];
  }

  /** A 16-bit delta keeps the first word and zeroes an odd byte after it. */
  lemma FirstWordAlone(x: Bytes)
    requires |x| == 3
    ensures DeltaChannel(x, 2) == [x[0], x[1], 0] && DeltaChannel([x[0], x[1]], 2) == [x[0], x[1]]
  {
    assert WordDelta(x, 0) == Word(x, 0) && WordDelta([x[0], x[1]], 0) == Word(x, 0);
  }

  /** What a pick is: a slot with a dump of its length and the first of the masks that reproduces it. */
  ghost predicate FirstMask(data: Bytes, slots: seq<Slot>, p: Pick) {
    && p.slot in slots && PickOk(data, p) && p.dump.data != [] && p.enc < 8
    && forall m: nat :: m < p.enc ==> !Reproduces(m, p.dump.data, OnDiskBytes(data, p.slot), p.slot)
  }

  lemma {:induction false} PicksAreFirst(data: Bytes, slots: seq<Slot>, decoded: seq<Dump>, picks: seq<Pick>)
    requires AllInFile(slots, |data|) && NoneCompressed(slots) && PicksFor(data, slots, decoded, picks)
    ensures forall k :: 0 <= k < |picks| ==> FirstMask(data, slots, picks[k])
    decreases |slots|
  {
    hide FirstMask, Streamable, PickIs;
    if slots != [] {
      var init, s := slots[..|slots| - 1], slots[|slots| - 1];
      assert slots == init + [s] && InFile(s, |data|);
      var early := if Streamable(data, s, decoded) then picks[..|picks| - 1] else picks;
      PicksAreFirst(data, init, decoded, early);
      forall k | 0 <= k < |picks| ensures FirstMask(data, slots, picks[k]) {
        if k < |early| {
          MoreSlots(data, init, s, early[k]);
        } else {
          PickIsFirst(data, slots, s, decoded, picks[k]);
        }
      }
    }
  }

  lemma MoreSlots(data: Bytes, slots: seq<Slot>, s: Slot, p: Pick)
    requires FirstMask(data, slots, p)
    ensures FirstMask(data, slots + [s], p)
  {
  }

  lemma PickIsFirst(data: Bytes, slots: seq<Slot>, s: Slot, decoded: seq<Dump>, p: Pick)
    requires s in slots && s.offset + s.length <= |data| && Streamable(data, s, decoded) && PickIs(data, s, decoded, p)
    ensures FirstMask(data, slots, p)
  {
    hide Reproduces, DumpFor;
  }

  lemma SafePickWritesRight(data: Bytes, slots: seq<Slot>, p: Pick)
    requires FirstMask(data, slots, p) && SplitSafe(p.slot.length, p.slot.bitDepth, p.slot.channels)
    ensures WritesRight(Desktop, data, p)
  {
    hide ApplyEncSpec, ApplyEncRust;
    var s, d := p.slot, p.dump.data;
    SafePickIsUnsplit(data, slots, p);
    RustAgreesOnWholeFrames(p.enc, d, s.bitDepth, s.channels);
  }

  lemma SafePickIsUnsplit(data: Bytes, slots: seq<Slot>, p: Pick)
    requires FirstMask(data, slots, p) && SplitSafe(p.slot.length, p.slot.bitDepth, p.slot.channels)
    ensures HasDeint(p.enc) && Stereo(p.slot.channels) ==> WholePairs(|p.dump.data|, WidthOf(p.slot.bitDepth))
  {
    hide ApplyEncSpec, Reproduces;
    var s, d := p.slot, p.dump.data;
    if HasDeint(p.enc) && Stereo(s.channels) && !WholePairs(|d|, WidthOf(s.bitDepth)) {
      UnsplitReproduces(p.enc, d, OnDiskBytes(data, s), s);
      assert false;
    }
  }

  lemma UnsplitReproduces(enc: nat, d: Bytes, onDisk: Bytes, s: Slot)
    requires 4 <= enc < 8 && Stereo(s.channels) && (|d| == 1 || (|d| == 3 && WidthOf(s.bitDepth) == 2))
    requires Reproduces(enc, d, onDisk, s)
    ensures exists m: nat :: m < enc && Reproduces(m, d, onDisk, s)
  {
    hide ApplyEncSpec;
    var plain := ShortUnsplit(enc, d, s.bitDepth, s.channels);
    assert Reproduces(plain, d, onDisk, s);
  }

  lemma SafeSlotsWriteRight(data: Bytes, slots: seq<Slot>, decoded: seq<Dump>, picks: seq<Pick>)
    requires AllInFile(slots, |data|) && NoneCompressed(slots) && AllSplitSafe(slots)
    requires PicksFor(data, slots, decoded, picks)
    ensures AllWriteRight(Desktop, data, picks)
  {
    hide PicksFor, SplitSafe, WritesRight;
    PicksAreFirst(data, slots, decoded, picks);
    forall k | 0 <= k < |picks| ensures PickOk(data, picks[k]) && WritesRight(Desktop, data, picks[k]) {
      assert FirstMask(data, slots, picks[k]);
      var i :| 0 <= i < |slots| && slots[i] == picks[k].slot;
      SafePickWritesRight(data, slots, picks[k]);
    }
  }

  // ---- Where it does ----

  /** On the other lengths a single misplaced 1 is reproduced by the splitting mask and by no plain one. */
  lemma PlainMasksFail(len: nat, bitDepth: int, channels: int, m: nat)
    requires !SplitSafe(len, bitDepth, channels) && m < 4
    requires var w := WidthOf(bitDepth); Deint(Probe(len, MovedFrom(len, w)), w)[MovedFrom(len, w)] == 0
    ensures var w := WidthOf(bitDepth); var d := Probe(len, MovedFrom(len, w));
      ApplyEncSpec(m, d, bitDepth, channels) != Deint(d, w)
  {
    var w := WidthOf(bitDepth);
    var at := MovedFrom(len, w);
    var d := Probe(len, at);
    assert ApplyEncSpec(m, d, bitDepth, channels) == ApplyStages(HasSign(m), HasDelta(m), false, d, w);
    if HasSign(m) {
      SignMasksFail(len, w, HasDelta(m));
    } else if HasDelta(m) {
      DeltaKeepsProbe(len, w);
    }
  }

  lemma DeltaKeepsProbe(len: nat, w: Width)
    requires len > 1 && (w == 2 ==> len != 3)
    ensures var at := MovedFrom(len, w); DeltaChannel(Probe(len, at), w)[at] == 1
  {
    var at := MovedFrom(len, w);
    var d := Probe(len, at);
    assert DeltaChannel(d, w)[at] == DeltaByte(d, w, at);
    if w == 2 {
      assert Word(d, 0) == if len == 2 then 256 else 0;
      if len > 2 {
        assert Word(d, 1) == 1 && WordDelta(d, 1) == 1;
      }
    }
  }

  lemma SignMasksFail(len: nat, w: Width, delta: bool)
    requires len > 1 && !WholePairs(len, w) && (w == 2 ==> len != 3)
    requires Deint(Probe(len, MovedFrom(len, w)), w)[MovedFrom(len, w)] == 0
    ensures var d := Probe(len, MovedFrom(len, w));
      ApplyStages(true, delta, false, d, w)[w - 1] >= 128 && Deint(d, w)[w - 1] == 0
  {
    var d := Probe(len, MovedFrom(len, w));
    var s := SignFlip(d, w);
    assert s[w - 1] >= 128;
    if delta {
      assert DeltaChannel(s, w)[w - 1] == DeltaByte(s, w, w - 1);
      if w == 2 {
        assert WordDelta(s, 0) == Word(s, 0);
      }
    }
    assert Deint(d, w)[w - 1] == DeintUpto(d, w, FrameCount(len, w), 0, 0, w - 1);
  }

  // ---- A build that picks one slot ----

  ghost predicate OwnIndices(slots: seq<Slot>) {
    forall j, k :: 0 <= j < k < |slots| ==> slots[j].index != slots[k].index
  }

  lemma {:induction false} NonePicked(data: Bytes, slots: seq<Slot>, dump: Dump)
    requires AllInFile(slots, |data|) && NoneCompressed(slots)
    requires forall k :: 0 <= k < |slots| ==> slots[k].index != dump.index
    ensures PicksFor(data, slots, [dump], [])
    decreases |slots|
  {
    if slots != [] {
      var s := slots[|slots| - 1];
      assert InFile(s, |data|);
      NotStreamable(data, s, dump);
      NonePicked(data, slots[..|slots| - 1], dump);
    }
  }

  lemma NotStreamable(data: Bytes, s: Slot, dump: Dump)
    requires s.offset + s.length <= |data| && s.index != dump.index
    ensures !Streamable(data, s, [dump])
  {
    assert DumpFor([dump], s.index) == DumpFor([dump][..0], s.index);
  }

  lemma {:induction false} OnePicked(data: Bytes, slots: seq<Slot>, k: nat, p: Pick)
    requires AllInFile(slots, |data|) && NoneCompressed(slots) && OwnIndices(slots)
    requires k < |slots| && p.slot == slots[k] && p.dump.index == slots[k].index
    requires slots[k].offset + slots[k].length <= |data|
    requires Streamable(data, slots[k], [p.dump]) && PickIs(data, slots[k], [p.dump], p)
    ensures PicksFor(data, slots, [p.dump], [p])
    decreases |slots|
  {
    hide Streamable, PickIs;
    var init, s := slots[..|slots| - 1], slots[|slots| - 1];
    assert InFile(s, |data|);
    if k == |slots| - 1 {
      NonePicked(data, init, p.dump);
      assert [p][..0] == [];
    } else {
      NotStreamable(data, s, p.dump);
      OnePicked(data, init, k, p);
    }
  }

  /** A slot of an unsafe shape in any file: other bytes for it, and a dump the desktop client writes back instead. */
  lemma UnsafeSlotLoses(file: Bytes, slots: seq<Slot>, k: nat) returns (data: Bytes, dump: Dump, p: Pick)
    requires AllInFile(slots, |file|) && NoneCompressed(slots) && OwnIndices(slots)
    requires k < |slots| && !SplitSafe(slots[k].length, slots[k].bitDepth, slots[k].channels)
    ensures |data| == |file|
    ensures forall i :: 0 <= i < |file| && !(slots[k].offset <= i < slots[k].offset + slots[k].length) ==> data[i] == file[i]
    ensures PicksFor(data, slots, [dump], [p]) && PicksFit(|data|, [p])
    ensures WrittenBack(Desktop, Blanked(data, [p]), [p]) != data
  {
    var s := slots[k];
    assert InFile(s, |file|) && !s.compressed;
    var d := RustDiffers(s.length, s.bitDepth, s.channels);
    var w := WidthOf(s.bitDepth);
    var onDisk := Deint(d, w);
    data, dump := Splice(file, s.offset, onDisk), Dump(s.index, 0, d);
    p := Pick(s, dump, 4);
    assert OnDiskBytes(data, s) == onDisk;
    forall m: nat | m < 4 ensures !Reproduces(m, d, onDisk, s) {
      PlainMasksFail(s.length, s.bitDepth, s.channels, m);
    }
    hide ApplyEncSpec, ApplyEncRust, Deint, PicksFor, WrittenBack, Blanked, Streamable, PickIs;
    SplitPick(data, s, p);
    OnePicked(data, slots, k, p);
    OneWritten(Desktop, Blanked(data, [p]), p);
    var at := s.offset + MovedFrom(s.length, w);
    assert Splice(Blanked(data, [p]), s.offset, d)[at] == 1 && data[at] == 0;
  }

  lemma SplitPick(data: Bytes, s: Slot, p: Pick)
    requires p.slot == s && p.dump.index == s.index && p.enc == 4 && p.dump.data != [] && PickOk(data, p)
    requires forall m: nat :: m < 4 ==> !Reproduces(m, p.dump.data, OnDiskBytes(data, s), s)
    ensures Streamable(data, s, [p.dump]) && PickIs(data, s, [p.dump], p)
  {
    hide Reproduces;
    assert DumpFor([p.dump], s.index) == Some(p.dump);
  }

  // ---- The exact condition ----

  /** The desktop client gives a file back from every root built for it, whatever was dumped. */
  ghost predicate GivesBack(data: Bytes, slots: seq<Slot>)
    requires AllInFile(slots, |data|) && NoneCompressed(slots)
  {
    forall decoded, picks :: PicksFor(data, slots, decoded, picks) ==>
      PicksFit(|data|, picks) && WrittenBack(Desktop, Blanked(data, picks), picks) == data
  }

  lemma SafeSlotsGiveBack(data: Bytes, slots: seq<Slot>)
    requires AllInFile(slots, |data|) && NoneCompressed(slots) && AllSplitSafe(slots)
    ensures GivesBack(data, slots)
  {
    hide PicksFor, WrittenBack, Blanked, SplitSafe, AllWriteRight;
    forall decoded, picks | PicksFor(data, slots, decoded, picks)
      ensures PicksFit(|data|, picks) && WrittenBack(Desktop, Blanked(data, picks), picks) == data
    {
      SafeSlotsWriteRight(data, slots, decoded, picks);
      DesktopWritesFile(data, picks);
    }
  }

  /**
   * For given slots in a file of given size: every such file is given back exactly when every slot is of a
   * safe shape.
   */
  lemma DesktopRebuildsIff(n: nat, slots: seq<Slot>)
    requires AllInFile(slots, n) && NoneCompressed(slots) && OwnIndices(slots)
    ensures AllSplitSafe(slots) <==> forall data: Bytes :: |data| == n ==> GivesBack(data, slots)
  {
    hide PicksFor, WrittenBack, Blanked, SplitSafe, OwnIndices;
    if AllSplitSafe(slots) {
      forall data: Bytes | |data| == n
        ensures GivesBack(data, slots)
      {
        SafeSlotsGiveBack(data, slots);
      }
    } else {
      var k :| 0 <= k < |slots| && !SplitSafe(slots[k].length, slots[k].bitDepth, slots[k].channels);
      var data, dump, p := UnsafeSlotLoses(Zeros(n), slots, k);
      assert !GivesBack(data, slots);
    }
  }

  lemma DesktopWritesFile(data: Bytes, picks: seq<Pick>)
    requires AllWriteRight(Desktop, data, picks)
    ensures PicksFit(|data|, picks) && WrittenBack(Desktop, Blanked(data, picks), picks) == data
  {
    hide WrittenBack, Blanked, WritesRight;
    assert PicksOk(data, picks);
    SkeletonIsRestorable(data, picks);
    WritingRestores(Desktop, data, Blanked(data, picks), picks);
  }

  lemma OneWritten(client: Client, out: Bytes, p: Pick)
    requires p.slot.offset + |p.dump.data| <= |out|
    ensures PicksFit(|out|, [p]) && WrittenBack(client, out, [p]) == Splice(out, p.slot.offset, WriteOf(client, p))
  {
    hide Splice, WriteOf;
    assert [p][1..] == [];
  }

  lemma ThreeBytesSplit()
    ensures Deint([1, 2, 3], 1) == [1, 3, 0]
  {
    var d: Bytes := [1, 2, 3];
    assert Deint(d, 1) == [DeintUpto(d, 1, 2, 0, 0, 0), DeintUpto(d, 1, 2, 0, 0, 1), DeintUpto(d, 1, 2, 0, 0, 2)];
  }

  lemma ThreeBytesTransform()
    ensures ApplyEncSpec(4, [1, 2, 3], 8, 2) == Deint([1, 2, 3], 1) && ApplyEncRust(4, [1, 2, 3], 8, 2) == [1, 2, 3]
    ensures forall m: nat :: m < 4 ==> ApplyEncSpec(m, [1, 2, 3], 8, 2) != [1, 3, 0]
  {
    hide Deint;
    var d: Bytes := [1, 2, 3];
    assert SignFlip(d, 1)[0] == 129;
    assert DeltaChannel(d, 1)[1] == 1 && DeltaChannel(SignFlip(d, 1), 1)[0] == 129;
  }

  /** Three bytes of 8-bit stereo: 1 2 3 dumped for 1 3 0 is picked with mask 4 and written back as dumped. */
  lemma ThreeBytesLost(data: Bytes, s: Slot)
    requires s.length == 3 && s.bitDepth == 8 && s.channels == 2 && !s.compressed && InFile(s, |data|)
    requires data[s.offset..s.offset + 3] == [1, 3, 0]
    ensures AllInFile([s], |data|) && NoneCompressed([s])
    ensures var p := Pick(s, Dump(s.index, 1, [1, 2, 3]), 4);
      && PicksFor(data, [s], [p.dump], [p]) && PicksFit(|data|, [p])
      && WrittenBack(Desktop, Blanked(data, [p]), [p])[s.offset..s.offset + 3] == [1, 2, 3]
  {
    var d: Bytes := [1, 2, 3];
    var p := Pick(s, Dump(s.index, 1, d), 4);
    hide ApplyEncSpec, ApplyEncRust, Deint, PicksFor, WrittenBack, Blanked, Streamable, PickIs;
    ThreeBytesSplit();
    ThreeBytesTransform();
    SplitPick(data, s, p);
    OnePicked(data, [s], 0, p);
    OneWritten(Desktop, Blanked(data, [p]), p);
    assert WriteOf(Desktop, p) == d;
    var out := Splice(Blanked(data, [p]), s.offset, d);
    assert out[s.offset..s.offset + 3] == d;
  }

  // ---- Build, then reassemble on the desktop ----

  /** For slots of safe shapes: whatever getter serves the blocks, the desktop client fails or gives the file back. */
  method BuildThenReassembleDesktop(
    f: Foreign, data: Bytes, slots: seq<Slot>, decoded: seq<Dump>, cdc: CdcConfig, tables: Option<SeekTables>,
    version: nat, serve: Store -> Getter)
    returns (r: Result<Bytes>)
    requires Lawful(f) && AllInFile(slots, |data|) && cdc.max > 0 && (version == 3 || version == 4)
    requires tables.Some? ==> ExactTimes(f, tables.value.orderSeconds)
    ensures NoneCompressed(slots) && SafeFor(slots, version) && r.Ok? ==> r.value == data
    ensures NoneCompressed(slots) && SafeFor(slots, version) && (forall store :: Honest(serve(store), store)) ==> r == Ok(data)
  {
    hide Lawful, PicksFor, AllWriteRight, AllKept, AllSplitSafe, AllWhole;
    ghost var picks;
    r, picks := BuildThenReassemble(f, data, slots, decoded, cdc, tables, version, serve, Desktop, true);
    if NoneCompressed(slots) && SafeFor(slots, version) {
      SafeSlotsWriteRight(data, slots, decoded, picks);
      if version == 4 {
        WholeSlotsAreKept(f, data, slots, decoded, picks);
      }
    }
  }

  ghost predicate SafeFor(slots: seq<Slot>, version: nat) {
    AllSplitSafe(slots) && (version == 4 ==> AllWhole(slots))
  }

  /** Slots of native layouts and whole frames. */
  ghost predicate AllWhole(slots: seq<Slot>) {
    forall k :: 0 <= k < |slots| ==>
      Native(slots[k].channels, slots[k].bitDepth) && WholeFrames(slots[k].length, slots[k].bitDepth, slots[k].channels)
  }

  /** Version 4 keeps every pick of such slots, whatever FLAC makes of it. */
  lemma WholeSlotsAreKept(f: Foreign, data: Bytes, slots: seq<Slot>, decoded: seq<Dump>, picks: seq<Pick>)
    requires AllInFile(slots, |data|) && NoneCompressed(slots) && AllWhole(slots)
    requires PicksFor(data, slots, decoded, picks)
    ensures AllKept(f, picks, 4)
  {
    hide PicksFor, Reproduces;
    PicksAreFirst(data, slots, decoded, picks);
    forall k | 0 <= k < |picks| ensures Kept(f, picks[k], 4) {
      assert FirstMask(data, slots, picks[k]);
      var i :| 0 <= i < |slots| && slots[i] == picks[k].slot;
    }
  }

  /** A built root denotes the file for the desktop client when its slots are safe. */
  lemma DesktopDenotes(f: Foreign, data: Bytes, slots: seq<Slot>, decoded: seq<Dump>, picks: seq<Pick>,
                       tables: Option<SeekTables>, version: nat, b: Built)
    requires Lawful(f) && (version == 3 || version == 4)
    requires AllInFile(slots, |data|) && NoneCompressed(slots) && PicksFor(data, slots, decoded, picks)
    requires BuiltOk(f, data, picks, tables, version, b)
    ensures SafeFor(slots, version) ==> RebuildFrom(f, b.store, b.root, Desktop, version) == Some(data)
  {
    hide Lawful, PicksFor, BuiltOk, RebuildFrom, AllKept, AllWriteRight, AllWhole, AllSplitSafe;
    if SafeFor(slots, version) {
      SafeSlotsWriteRight(data, slots, decoded, picks);
      KeptInVersion3(f, picks);
      if version == 4 {
        WholeSlotsAreKept(f, data, slots, decoded, picks);
      }
      BuiltDenotesFile(f, data, picks, tables, version, b, Desktop);
    }
  }
}
