/** Impulse Tracker modules: the sample slots the builders are given. */
module ItSlots {
  import opened Basics
  import opened Skeleton
  import opened Blocks
  import opened Formats

  // ---- Bytes ----

  predicate Bit(flags: byte, weight: nat)
    requires weight > 0
  {
    flags as int / weight % 2 == 1
  }

  // ---- The span of a compressed sample ----

  /** Where the length-prefixed blocks of one channel end, unless they run past the end of the file. */
  function BlocksEnd(b: Bytes, off: nat, remaining: nat, perBlock: nat): Option<nat>
    requires perBlock > 0
    decreases remaining
  {
    if remaining == 0 then Some(off)
    else if off + 2 > |b| then None
    else
      var next := off + 2 + U16le(b, off);
      if next > |b| then None else BlocksEnd(b, next, remaining - Min(perBlock, remaining), perBlock)
  }

  function ChannelsEnd(b: Bytes, off: nat, frames: nat, perBlock: nat, channels: nat): Option<nat>
    requires perBlock > 0
  {
    if channels == 0 then Some(off)
    else
      var before := ChannelsEnd(b, off, frames, perBlock, channels - 1);
      if before.None? then None else BlocksEnd(b, before.value, frames, perBlock)
  }

  function PerBlock(bitDepth: int): nat { if bitDepth == 16 then 0x4000 else 0x8000 }

  method ItCompressedSpan(b: Bytes, ptr: nat, frames: nat, bitDepth: int, channels: nat) returns (span: int)
    ensures var end := ChannelsEnd(b, ptr, frames, PerBlock(bitDepth), channels);
      span == if end.Some? then end.value - ptr else -1
  {
    var perBlock := PerBlock(bitDepth);
    var off: nat := ptr;
    for ch := 0 to channels
      invariant ChannelsEnd(b, ptr, frames, perBlock, ch) == Some(off)
    {
      ghost var start := off;
      var remaining: nat := frames;
      while remaining > 0
        invariant BlocksEnd(b, off, remaining, perBlock) == BlocksEnd(b, start, frames, perBlock)
        decreases remaining
      {
        if off + 2 > |b| {
          BrokenChannel(b, ptr, frames, perBlock, ch + 1, channels);
          return -1;
        }
        var blockLen := U16le(b, off);
        if off + 2 + blockLen > |b| {
          BrokenChannel(b, ptr, frames, perBlock, ch + 1, channels);
          return -1;
        }
        off := off + 2 + blockLen;
        remaining := remaining - Min(perBlock, remaining);
      }
    }
    return off - ptr;
  }

  lemma {:induction false} BrokenChannel(b: Bytes, off: nat, frames: nat, perBlock: nat, ch: nat, channels: nat)
    requires perBlock > 0 && ch <= channels && ChannelsEnd(b, off, frames, perBlock, ch).None?
    ensures ChannelsEnd(b, off, frames, perBlock, channels).None?
    decreases channels - ch
  {
    if ch < channels {
      BrokenChannel(b, off, frames, perBlock, ch, channels - 1);
    }
  }

  lemma {:induction false} BlocksStayInFile(b: Bytes, off: nat, remaining: nat, perBlock: nat)
    requires perBlock > 0 && off <= |b|
    ensures var end := BlocksEnd(b, off, remaining, perBlock); end.Some? ==> off <= end.value <= |b|
    decreases remaining
  {
    if remaining > 0 && off + 2 <= |b| && off + 2 + U16le(b, off) <= |b| {
      BlocksStayInFile(b, off + 2 + U16le(b, off), remaining - Min(perBlock, remaining), perBlock);
    }
  }

  lemma {:induction false} ChannelsStayInFile(b: Bytes, off: nat, frames: nat, perBlock: nat, channels: nat)
    requires perBlock > 0 && off <= |b|
    ensures var end := ChannelsEnd(b, off, frames, perBlock, channels); end.Some? ==> off <= end.value <= |b|
  {
    if channels > 0 {
      ChannelsStayInFile(b, off, frames, perBlock, channels - 1);
      var before := ChannelsEnd(b, off, frames, perBlock, channels - 1);
      if before.Some? {
        BlocksStayInFile(b, before.value, frames, perBlock);
      }
    }
  }

  // ---- The locator ----

  function PointerTable(b: Bytes): nat { 0xc0 + U16le(b, 0x20) + U16le(b, 0x22) * 4 }

  function SampleCount(b: Bytes): nat { U16le(b, 0x24) }

  /** Sample `i`, if its header is in the file and names a sample. */
  function ItSlot(b: Bytes, i: nat): Option<Slot> {
    var so := U32le(b, PointerTable(b) + i * 4);
    if so == 0 || so + 0x50 > |b| then None
    else
      var flg, frames, ptr := b[so + 0x12], U32le(b, so + 0x30), U32le(b, so + 0x48);
      if !Bit(flg, 1) || frames == 0 || ptr == 0 then None
      else
        var bitDepth, channels: nat := if Bit(flg, 2) then 16 else 8, if Bit(flg, 4) then 2 else 1;
        var decoded := DecodedBytes(frames, bitDepth, channels);
        if Bit(flg, 8) then
          var end := ChannelsEnd(b, ptr, frames, PerBlock(bitDepth), channels);
          Some(Slot(i + 1, ptr, decoded, bitDepth, channels, true, so, if end.Some? && end.value > ptr then end.value - ptr else 0))
        else if ptr < |b| then
          Some(Slot(i + 1, ptr, Min(decoded, |b| - ptr), bitDepth, channels, false, 0, 0))
        else None
  }

  function DecodedBytes(frames: nat, bitDepth: int, channels: nat): (n: nat)
    ensures n >= frames
  {
    var one := if bitDepth == 16 then 2 * frames else frames;
    if channels == 2 then 2 * one else one
  }

  function SlotsUpTo(b: Bytes, n: nat): seq<Slot> {
    if n == 0 then []
    else SlotsUpTo(b, n - 1) + if ItSlot(b, n - 1).Some? then [ItSlot(b, n - 1).value] else []
  }

  method ItLikeSlots(b: Bytes) returns (out: seq<Slot>)
    ensures out == SlotsUpTo(b, SampleCount(b))
  {
    hide BlocksEnd, ChannelsEnd, DecodedBytes, U32le, Bit;
    var base := PointerTable(b);
    out := [];
    for i := 0 to SampleCount(b)
      invariant out == SlotsUpTo(b, i)
    {
      var so := U32le(b, base + i * 4);
      if so == 0 || so + 0x50 > |b| {
        continue;
      }
      var flg, frames, ptr := b[so + 0x12], U32le(b, so + 0x30), U32le(b, so + 0x48);
      if !Bit(flg, 1) || frames == 0 || ptr == 0 {
        continue;
      }
      var bitDepth, channels: nat := if Bit(flg, 2) then 16 else 8, if Bit(flg, 4) then 2 else 1;
      var decoded := DecodedBytes(frames, bitDepth, channels);
      if Bit(flg, 8) {
        if decoded > 0 {
          var span := ItCompressedSpan(b, ptr, frames, bitDepth, channels);
          out := out + [Slot(i + 1, ptr, decoded, bitDepth, channels, true, so, if span > 0 then span else 0)];
        }
        continue;
      }
      var bytes := Min(decoded, |b| - ptr);
      if bytes > 0 {
        out := out + [Slot(i + 1, ptr, bytes, bitDepth, channels, false, 0, 0)];
      }
    }
  }

  // ---- What the v2 builder is given ----

  predicate Fits(s: Slot, len: nat) { s.length > 0 && s.offset + s.length <= len }

  /** The locator's slots whose decoded length fits the file. */
  function FileSlots(b: Bytes): seq<Slot> { Fitting(SlotsUpTo(b, SampleCount(b)), |b|) }

  function Fitting(slots: seq<Slot>, len: nat): seq<Slot> {
    if slots == [] then []
    else Fitting(slots[..|slots| - 1], len) + if Fits(slots[|slots| - 1], len) then [slots[|slots| - 1]] else []
  }

  method SampleSlots(b: Bytes) returns (out: seq<Slot>)
    ensures out == FileSlots(b)
  {
    var slots := ItLikeSlots(b);
    out := [];
    for k := 0 to |slots|
      invariant out == Fitting(slots[..k], |b|)
    {
      assert slots[..k + 1][..k] == slots[..k];
      if Fits(slots[k], |b|) {
        out := out + [slots[k]];
      }
    }
    assert slots[..|slots|] == slots;
  }

  /** What every slot of a file is: in the file, header and span included, native, and numbered in order. */
  ghost predicate Located(slots: seq<Slot>, len: nat) {
    && AllInFile(slots, len)
    && (forall k :: 0 <= k < |slots| ==> Native(slots[k].channels, slots[k].bitDepth) && slots[k].length > 0)
    && forall j, k :: 0 <= j < k < |slots| ==> slots[j].index < slots[k].index
  }

  lemma ItSlotIs(b: Bytes, i: nat)
    requires ItSlot(b, i).Some?
    ensures var s := ItSlot(b, i).value;
      && s.index == i + 1 && Native(s.channels, s.bitDepth)
      && (Fits(s, |b|) ==> InFile(s, |b|))
  {
    hide DecodedBytes, U32le, Bit;
    var s := ItSlot(b, i).value;
    if s.compressed && s.offset <= |b| {
      var frames := U32le(b, s.headerOffset + 0x30);
      ChannelsStayInFile(b, s.offset, frames, PerBlock(s.bitDepth), s.channels);
    }
  }

  lemma {:induction false} FittingIsLocated(b: Bytes, n: nat)
    ensures Located(Fitting(SlotsUpTo(b, n), |b|), |b|)
    ensures forall s :: s in Fitting(SlotsUpTo(b, n), |b|) ==> s.index <= n
  {
    hide ItSlot, Located;
    if n == 0 {
      assert Located([], |b|) by { NoneLocated(|b|); }
    } else {
      FittingIsLocated(b, n - 1);
      var before := SlotsUpTo(b, n - 1);
      if ItSlot(b, n - 1).Some? {
        ItSlotIs(b, n - 1);
        assert (before + [ItSlot(b, n - 1).value])[..|before|] == before;
        if Fits(ItSlot(b, n - 1).value, |b|) {
          LocatedSnoc(Fitting(before, |b|), ItSlot(b, n - 1).value, |b|, n - 1);
        } else {
          assert Fitting(before, |b|) + [] == Fitting(before, |b|);
        }
      } else {
        assert before + [] == before;
      }
    }
  }

  lemma NoneLocated(len: nat)
    ensures Located([], len)
  {
  }

  lemma LocatedSnoc(slots: seq<Slot>, s: Slot, len: nat, n: nat)
    requires Located(slots, len) && forall x :: x in slots ==> x.index <= n
    requires s.index == n + 1 && Native(s.channels, s.bitDepth) && Fits(s, len) && InFile(s, len)
    ensures Located(slots + [s], len)
  {
    hide InFile;
    assert forall j | 0 <= j < |slots| :: slots[j] in slots;
  }

  /** For every file, what the builders require of their slots holds. */
  lemma FileSlotsAreLocated(b: Bytes)
    ensures Located(FileSlots(b), |b|)
  {
    FittingIsLocated(b, SampleCount(b));
  }
}
