/**
 * Impulse Tracker sample headers, compressed blocks and keyboards written and read back: the slot, its span
 * and the sample a note plays are those that were written.
 */
module ItHeaders {
  import opened Basics
  import opened Formats
  import opened Skeleton
  import opened ItSlots
  import opened ItTables
  import opened Seek

  // ---- Sample headers ----

  /** What a sample header says: its flags, its length in frames and where its data starts. */
  datatype Head = Head(sixteen: bool, stereo: bool, compressed: bool, frames: nat, data: nat)

  predicate HeadOk(h: Head) { 0 < h.frames < 0x1_0000_0000 && 0 < h.data < 0x1_0000_0000 }

  function FlagsOf(h: Head, others: nat): byte
    requires others < 16
  {
    1 + (if h.sixteen then 2 else 0) + (if h.stereo then 4 else 0) + (if h.compressed then 8 else 0) + 16 * others
  }

  /** Header `h` stands at `so`, named by entry `i` of the pointer table. */
  ghost predicate HeadAt(b: Bytes, i: nat, so: nat, h: Head, others: nat)
    requires HeadOk(h) && others < 16
  {
    && 0 < so < 0x1_0000_0000 && so + 0x50 <= |b|
    && Holds(b, 0xc0 + U16le(b, 0x20) + 4 * U16le(b, 0x22) + 4 * i, Le32(so))
    && Holds(b, so + 0x12, [FlagsOf(h, others)])
    && Holds(b, so + 0x30, Le32(h.frames)) && Holds(b, so + 0x48, Le32(h.data))
  }

  /** Bytes of one sample point of the decoded PCM. */
  function FrameBytes(h: Head): nat { (if h.sixteen then 2 else 1) * (if h.stereo then 2 else 1) }

  lemma FlagsRead(h: Head, others: nat)
    requires others < 16
    ensures var f := FlagsOf(h, others);
      Bit(f, 1) && (Bit(f, 2) <==> h.sixteen) && (Bit(f, 4) <==> h.stereo) && (Bit(f, 8) <==> h.compressed)
  {
  }

  lemma DecodedIs(h: Head)
    ensures DecodedBytes(h.frames, if h.sixteen then 16 else 8, if h.stereo then 2 else 1) == h.frames * FrameBytes(h)
  {
    if h.sixteen && h.stereo {
      assert FrameBytes(h) == 4;
    } else if h.sixteen || h.stereo {
      assert FrameBytes(h) == 2;
    } else {
      assert FrameBytes(h) == 1;
    }
  }

  lemma HeadReads(b: Bytes, i: nat, so: nat, h: Head, others: nat)
    requires HeadOk(h) && others < 16 && HeadAt(b, i, so, h, others)
    ensures U32le(b, PointerTable(b) + i * 4) == so && b[so + 0x12] == FlagsOf(h, others)
    ensures U32le(b, so + 0x30) == h.frames && U32le(b, so + 0x48) == h.data
  {
    hide U32le, U16le, Holds, FlagsOf;
    Le32Reads(b, PointerTable(b) + i * 4, so);
    HoldsByte(b, so + 0x12, FlagsOf(h, others));
    Le32Reads(b, so + 0x30, h.frames);
    Le32Reads(b, so + 0x48, h.data);
  }

  /** A raw sample is located as written, cut short at the end of the file. */
  lemma RawHeadReads(b: Bytes, i: nat, so: nat, h: Head, others: nat)
    requires HeadOk(h) && others < 16 && HeadAt(b, i, so, h, others) && !h.compressed
    ensures ItSlot(b, i) ==
      if h.data >= |b| then None
      else Some(Slot(i + 1, h.data, Min(h.frames * FrameBytes(h), |b| - h.data), if h.sixteen then 16 else 8,
                     if h.stereo then 2 else 1, false, 0, 0))
  {
    hide U32le, U16le, Holds, FlagsOf, Bit, ChannelsEnd, PointerTable, DecodedBytes, FrameBytes;
    DecodedIs(h);
    HeadReads(b, i, so, h, others);
    FlagsRead(h, others);
  }

  // ---- Compressed blocks ----

  /** A block: its length in two bytes, and its content. */
  function BlocksBytes(blocks: seq<Bytes>): Bytes
    requires forall k :: 0 <= k < |blocks| ==> |blocks[k]| < 65536
  {
    if blocks == [] then [] else Le16(|blocks[0]|) + blocks[0] + BlocksBytes(blocks[1..])
  }

  /** How many blocks a channel of `frames` frames takes. */
  function BlockCount(frames: nat, perBlock: nat): nat
    requires perBlock > 0
  {
    if frames == 0 then 0 else 1 + BlockCount(frames - Min(perBlock, frames), perBlock)
  }

  /** That many full blocks and no more hold the frames. */
  lemma {:induction false} BlocksHoldFrames(frames: nat, perBlock: nat)
    requires perBlock > 0
    ensures BlockCount(frames, perBlock) * perBlock >= frames
    ensures frames > 0 ==> (BlockCount(frames, perBlock) - 1) * perBlock < frames
    decreases frames
  {
    if frames > 0 {
      var rest: nat := frames - Min(perBlock, frames);
      var n := BlockCount(rest, perBlock);
      BlocksHoldFrames(rest, perBlock);
      assert (n + 1) * perBlock == n * perBlock + perBlock;
      assert rest > 0 ==> (n - 1) * perBlock + perBlock == n * perBlock;
    }
  }

  lemma {:induction false} ChannelReads(b: Bytes, off: nat, frames: nat, perBlock: nat, blocks: seq<Bytes>)
    requires perBlock > 0 && |blocks| == BlockCount(frames, perBlock)
    requires (forall k :: 0 <= k < |blocks| ==> |blocks[k]| < 65536) && Holds(b, off, BlocksBytes(blocks))
    ensures BlocksEnd(b, off, frames, perBlock) == Some(off + |BlocksBytes(blocks)|)
    decreases frames
  {
    hide U16le, Le16;
    if frames > 0 {
      var x := blocks[0];
      Le16Length(|x|);
      HoldsSplit(b, off, Le16(|x|) + x, BlocksBytes(blocks[1..]));
      HoldsSplit(b, off, Le16(|x|), x);
      Le16Reads(b, off, |x|);
      ChannelReads(b, off + 2 + |x|, frames - Min(perBlock, frames), perBlock, blocks[1..]);
    }
  }

  /** A compressed sample is located with its decoded length, its header, and the span of its blocks, channel after channel. */
  lemma CompressedHeadReads(b: Bytes, i: nat, so: nat, h: Head, others: nat, left: seq<Bytes>, right: seq<Bytes>)
    requires HeadOk(h) && others < 16 && HeadAt(b, i, so, h, others) && h.compressed
    requires forall k :: 0 <= k < |left| ==> |left[k]| < 65536
    requires forall k :: 0 <= k < |right| ==> |right[k]| < 65536
    requires |left| == BlockCount(h.frames, if h.sixteen then 0x4000 else 0x8000)
    requires |right| == if h.stereo then |left| else 0
    requires Holds(b, h.data, BlocksBytes(left) + BlocksBytes(right))
    ensures ItSlot(b, i) ==
      Some(Slot(i + 1, h.data, h.frames * FrameBytes(h), if h.sixteen then 16 else 8, if h.stereo then 2 else 1,
                true, so, |BlocksBytes(left) + BlocksBytes(right)|))
  {
    hide U32le, U16le, Holds, FlagsOf, Bit, ChannelsEnd, BlockCount, BlocksBytes, PointerTable, DecodedBytes, FrameBytes;
    DecodedIs(h);
    HeadReads(b, i, so, h, others);
    FlagsRead(h, others);
    BlocksRead(b, h, left, right);
    SomeBlock(h, left);
  }

  lemma BlocksRead(b: Bytes, h: Head, left: seq<Bytes>, right: seq<Bytes>)
    requires forall k :: 0 <= k < |left| ==> |left[k]| < 65536
    requires forall k :: 0 <= k < |right| ==> |right[k]| < 65536
    requires |left| == BlockCount(h.frames, if h.sixteen then 0x4000 else 0x8000)
    requires |right| == if h.stereo then |left| else 0
    requires Holds(b, h.data, BlocksBytes(left) + BlocksBytes(right))
    ensures ChannelsEnd(b, h.data, h.frames, PerBlock(if h.sixteen then 16 else 8), if h.stereo then 2 else 1) ==
      Some(h.data + |BlocksBytes(left)| + |BlocksBytes(right)|)
  {
    hide Holds, BlocksEnd, BlockCount;
    var perBlock := PerBlock(if h.sixteen then 16 else 8);
    HoldsSplit(b, h.data, BlocksBytes(left), BlocksBytes(right));
    ChannelReads(b, h.data, h.frames, perBlock, left);
    assert ChannelsEnd(b, h.data, h.frames, perBlock, 0) == Some(h.data);
    assert ChannelsEnd(b, h.data, h.frames, perBlock, 1) == Some(h.data + |BlocksBytes(left)|);
    if h.stereo {
      ChannelReads(b, h.data + |BlocksBytes(left)|, h.frames, perBlock, right);
    } else {
      assert BlocksBytes(right) == [];
    }
  }

  lemma SomeBlock(h: Head, left: seq<Bytes>)
    requires HeadOk(h) && |left| == BlockCount(h.frames, if h.sixteen then 0x4000 else 0x8000)
    requires forall k :: 0 <= k < |left| ==> |left[k]| < 65536
    ensures |BlocksBytes(left)| > 0
  {
    Le16Length(|left[0]|);
  }

  // ---- Keyboards ----

  /** A keyboard: for each note the note to play and the sample, 0 for none. */
  function KeyboardBytes(keys: seq<(byte, byte)>): (b: Bytes)
    ensures |b| == 2 * |keys|
  {
    if keys == [] then [] else KeyboardBytes(keys[..|keys| - 1]) + [keys[|keys| - 1].0, keys[|keys| - 1].1]
  }

  lemma {:induction false} KeyReads(b: Bytes, p: nat, keys: seq<(byte, byte)>, note: nat)
    requires Holds(b, p, KeyboardBytes(keys)) && note < |keys|
    ensures p + 2 * note + 1 < |b| && b[p + 2 * note + 1] == keys[note].1
    decreases |keys|
  {
    hide Holds;
    var init, last := keys[..|keys| - 1], keys[|keys| - 1];
    HoldsSplit(b, p, KeyboardBytes(init), [last.0, last.1]);
    if note < |init| {
      KeyReads(b, p, init, note);
    } else {
      HoldsTwo(b, p + 2 * note, last.0, last.1);
    }
  }

  /** In instrument mode a note plays the sample its instrument's keyboard has there; older files keep the keyboard earlier. */
  lemma KeyboardPlays(b: Bytes, h: ItHeader, ins: nat, off: nat, keys: seq<(byte, byte)>, note: nat)
    requires h.useInstruments && ins > 0 && 0 < off < 0x1_0000_0000 && |keys| == 120 && note < 120
    requires Holds(b, h.insBase + 4 * (ins - 1), Le32(off))
    requires Holds(b, off + (if h.cmwt >= 0x200 then 0x40 else 0x2e), KeyboardBytes(keys))
    ensures SampleForNote(b, h, ins, note) == keys[note].1 as int - 1
  {
    hide U32le, Holds, KeyboardBytes;
    Le32Reads(b, h.insBase + (ins - 1) * 4, off);
    KeyReads(b, off + (if h.cmwt >= 0x200 then 0x40 else 0x2e), keys, note);
  }

  /** In sample mode the number is the sample's own; cuts, releases and cells without a number play nothing. */
  lemma SampleModePlays(b: Bytes, h: ItHeader, ins: nat, note: int)
    ensures !h.useInstruments && 0 <= note < 120 ==> SampleForNote(b, h, ins, note) == ins - 1
    ensures !(0 <= note < 120) || ins == 0 ==> SampleForNote(b, h, ins, note) == -1
  {
  }

  /** Instruments are used when bit 2 of the song's flags is set and there are any. */
  lemma InstrumentsUsed(b: Bytes, low: nat, instruments: bool, high: nat, count: nat, version: nat)
    requires HasHeader(b) && low < 4 && high < 8192 && count < 65536 && version < 65536
    requires Holds(b, 0x2c, Le16(low + (if instruments then 4 else 0) + 8 * high))
    requires Holds(b, 0x22, Le16(count)) && Holds(b, 0x2a, Le16(version))
    ensures HeaderOf(b).useInstruments <==> instruments && count > 0
    ensures HeaderOf(b).cmwt == version && HeaderOf(b).insBase == 0xc0 + |HeaderOf(b).orders|
  {
    hide Holds, U16le;
    Le16Reads(b, 0x2c, low + (if instruments then 4 else 0) + 8 * high);
    Le16Reads(b, 0x22, count);
    Le16Reads(b, 0x2a, version);
  }

  // ---- The order list ----

  /** The played orders are the entries below the markers. */
  lemma PlayedOrdersAre(b: Bytes, n: nat, pat: nat)
    requires HasHeader(b)
    ensures OrderPat(n, pat) in ItModel(b).orderPats <==> n < U16le(b, 0x20) && b[0xc0 + n] as int == pat && pat < 254
  {
    hide U16le, OrdersTo;
    PlayedAre(HeaderOf(b), |HeaderOf(b).orders|, n, pat);
  }

  lemma {:induction false} PlayedAre(h: ItHeader, len: nat, n: nat, pat: nat)
    requires len <= |h.orders|
    ensures OrderPat(n, pat) in OrdersTo(h, len) <==> n < len && h.orders[n] as int == pat && pat < 254
    decreases len
  {
    if len > 0 {
      PlayedAre(h, len - 1, n, pat);
    }
  }

  /** Speed and tempo at the start: the header's, or 6 and 125 where it has none. */
  lemma StartSettings(b: Bytes)
    requires HasHeader(b)
    ensures ItModel(b).speed0 == if b[0x32] == 0 then 6 else b[0x32] as int
    ensures ItModel(b).tempo0 == if b[0x33] == 0 then 125 else b[0x33] as int
  {
    hide U16le, OrdersTo;
  }
}
