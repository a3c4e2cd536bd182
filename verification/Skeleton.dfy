/**
 * The skeleton (a module with its streamed sample bytes zeroed) and the run-length recipe that
 * carries it: structure chunks to transfer, zero runs to synthesise.
 */
module Skeleton {
  import opened Basics
  import opened Spans

  // ---- Zeroing the streamed regions ----

  /** A located sample slot. `compressedBytes` 0 stands for an on-disk span that is not known. */
  datatype Slot = Slot(
    index: nat, offset: nat, length: nat, bitDepth: int, channels: int,
    compressed: bool, headerOffset: nat, compressedBytes: nat)

  /** What the slot locator has checked: the region it names lies in the file. */
  predicate InFile(s: Slot, len: nat) {
    && s.offset + (if s.compressed then s.compressedBytes else s.length) <= len
    && (s.compressed ==> s.headerOffset + 0x50 <= len)
  }

  predicate AllInFile(slots: seq<Slot>, len: nat) {
    forall k :: 0 <= k < |slots| ==> InFile(slots[k], len)
  }

  function Zeroed(sk: Bytes, lo: nat, hi: nat): (r: Bytes)
    requires lo <= hi <= |sk|
    ensures |r| == |sk|
  {
    sk[..lo] + Zeros(hi - lo) + sk[hi..]
  }

  function FillRaw(sk: Bytes, slots: seq<Slot>, len: nat): (r: Bytes)
    requires AllInFile(slots, len) && len <= |sk|
    ensures |r| == |sk|
    decreases |slots|
  {
    if slots == [] then sk
    else if slots[0].compressed then FillRaw(sk, slots[1..], len)
    else FillRaw(Zeroed(sk, slots[0].offset, slots[0].offset + slots[0].length), slots[1..], len)
  }

  /** Clear the IT compression flag at +0x12 and write `cursor` as u32le at +0x48. */
  function Repoint(sk: Bytes, h: nat, cursor: nat): (r: Bytes)
    requires h + 0x50 <= |sk|
    ensures |r| == |sk|
    ensures forall i :: 0 <= i < |sk| && !HeaderByte(h, i) ==> r[i] == sk[i]
  {
    var flag: byte := sk[h + 0x12];
    sk[h + 0x12 := if flag / 8 % 2 == 1 then flag - 8 else flag]
      [h + 0x48 := cursor % 256][h + 0x49 := cursor / 0x100 % 256]
      [h + 0x4a := cursor / 0x10000 % 256][h + 0x4b := cursor / 0x1000000 % 256]
  }

  predicate HeaderByte(h: nat, i: int) {
    i == h + 0x12 || h + 0x48 <= i <= h + 0x4b
  }

  /** Zero the orphaned on-disk span and point the header at the appended region. */
  function Synthesize(sk: Bytes, s: Slot, cursor: nat): (r: Bytes)
    requires s.offset + s.compressedBytes <= |sk| && s.headerOffset + 0x50 <= |sk|
    ensures |r| == |sk|
  {
    Repoint(Zeroed(sk, s.offset, s.offset + s.compressedBytes), s.headerOffset, cursor)
  }

  /** The compressed slots in turn: zero the orphaned span if known, then repoint the header. */
  function FillCompressed(sk: Bytes, slots: seq<Slot>, len: nat, cursor: nat): (r: Bytes)
    requires AllInFile(slots, len) && len <= |sk|
    ensures |r| == |sk|
    decreases |slots|
  {
    if slots == [] then sk
    else
      var s := slots[0];
      if !s.compressed then FillCompressed(sk, slots[1..], len, cursor)
      else
        FillCompressed(Synthesize(sk, s, cursor), slots[1..], len, cursor + s.length)
  }

  function Extra(slots: seq<Slot>): nat {
    if slots == [] then 0 else (if slots[0].compressed then slots[0].length else 0) + Extra(slots[1..])
  }

  function SkeletonOf(data: Bytes, slots: seq<Slot>): (r: Bytes)
    requires AllInFile(slots, |data|)
    ensures |r| == |data| + Extra(slots)
  {
    FillCompressed(FillRaw(data + Zeros(Extra(slots)), slots, |data|), slots, |data|, |data|)
  }

  /** The spans of uncompressed slots, then of compressed ones. */
  function SlotSpans(slots: seq<Slot>, compressed: bool): seq<Span> {
    if slots == [] then []
    else
      var s := slots[0];
      (if s.compressed != compressed then []
       else if !s.compressed then [Span(s.offset, s.offset + s.length)]
       else if s.compressedBytes > 0 then [Span(s.offset, s.offset + s.compressedBytes)] else [])
      + SlotSpans(slots[1..], compressed)
  }

  function ZeroSpans(slots: seq<Slot>, len: nat): seq<Span> {
    SlotSpans(slots, false) + SlotSpans(slots, true)
    + if Extra(slots) > 0 then [Span(len, len + Extra(slots))] else []
  }

  method BuildSkeletonV2(data: Bytes, streamed: seq<Slot>) returns (skeleton: Bytes, zeroSpans: seq<Span>)
    requires AllInFile(streamed, |data|)
    ensures skeleton == SkeletonOf(data, streamed)
    ensures zeroSpans == ZeroSpans(streamed, |data|)
  {
    var extra := 0;
    for k := 0 to |streamed|
      invariant extra + Extra(streamed[k..]) == Extra(streamed)
    {
      if streamed[k].compressed {
        extra := extra + streamed[k].length;
      }
    }
    var sk, spans := ZeroUncompressed(data + Zeros(extra), streamed, |data|);
    var compSpans;
    skeleton, compSpans := SynthesizeCompressed(sk, streamed, |data|);
    zeroSpans := spans + compSpans;
    if extra > 0 {
      zeroSpans := zeroSpans + [Span(|data|, |skeleton|)];
    }
  }

  method ZeroUncompressed(sk: Bytes, slots: seq<Slot>, len: nat) returns (r: Bytes, spans: seq<Span>)
    requires AllInFile(slots, len) && len <= |sk|
    ensures r == FillRaw(sk, slots, len)
    ensures spans == SlotSpans(slots, false)
  {
    r, spans := sk, [];
    var todo := slots;
    while todo != []
      invariant |r| == |sk| && AllInFile(todo, len)
      invariant FillRaw(r, todo, len) == FillRaw(sk, slots, len)
      invariant spans + SlotSpans(todo, false) == SlotSpans(slots, false)
      decreases |todo|
    {
      hide Zeroed;
      var s := todo[0];
      assert InFile(s, len);
      if !s.compressed {
        r := Zeroed(r, s.offset, s.offset + s.length);
        spans := spans + [Span(s.offset, s.offset + s.length)];
      }
      todo := todo[1..];
    }
  }

  lemma SynthesizeStep(sk: Bytes, slots: seq<Slot>, len: nat, cursor: nat)
    requires AllInFile(slots, len) && len <= |sk| && slots != []
    ensures AllInFile(slots[1..], len) && InFile(slots[0], len)
    ensures FillCompressed(sk, slots, len, cursor) ==
      if slots[0].compressed
      then FillCompressed(Synthesize(sk, slots[0], cursor), slots[1..], len, cursor + slots[0].length)
      else FillCompressed(sk, slots[1..], len, cursor)
  {
  }

  method SynthesizeCompressed(sk: Bytes, slots: seq<Slot>, len: nat) returns (r: Bytes, spans: seq<Span>)
    requires AllInFile(slots, len) && len <= |sk|
    ensures r == FillCompressed(sk, slots, len, len)
    ensures spans == SlotSpans(slots, true)
  {
    hide Synthesize, FillCompressed;
    r, spans := sk, [];
    var cursor: nat, todo := len, slots;
    while todo != []
      invariant |r| == |sk| && AllInFile(todo, len)
      invariant FillCompressed(r, todo, len, cursor) == FillCompressed(sk, slots, len, len)
      invariant spans + SlotSpans(todo, true) == SlotSpans(slots, true)
      decreases |todo|
    {
      var s := todo[0];
      SynthesizeStep(r, todo, len, cursor);
      if s.compressed {
        if s.compressedBytes > 0 {
          spans := spans + [Span(s.offset, s.offset + s.compressedBytes)];
        }
        r := Synthesize(r, s, cursor);
        cursor := cursor + s.length;
      }
      todo := todo[1..];
    }
    SynthesizeEnd(r, len, cursor);
  }

  lemma SynthesizeEnd(sk: Bytes, len: nat, cursor: nat)
    requires len <= |sk|
    ensures FillCompressed(sk, [], len, cursor) == sk
  {
  }
}
