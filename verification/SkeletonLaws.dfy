/** When the skeleton recipe loses nothing: always without compressed slots, and exactly when with them. */
module SkeletonLaws {
  import opened Basics
  import opened Cdc
  import opened Spans
  import opened Skeleton
  import opened Recipe

  ghost predicate NoneCompressed(slots: seq<Slot>) {
    forall k :: 0 <= k < |slots| ==> !slots[k].compressed
  }

  /** A header field byte of some compressed slot. */
  ghost predicate HeaderAt(slots: seq<Slot>, i: int) {
    exists k :: 0 <= k < |slots| && slots[k].compressed && HeaderByte(slots[k].headerOffset, i)
  }

  lemma CoveredAppend(a: seq<Span>, b: seq<Span>, i: int)
    ensures Covered(a + b, i) <==> Covered(a, i) || Covered(b, i)
  {
    if Covered(a, i) {
      var k :| 0 <= k < |a| && a[k].lo <= i < a[k].hi;
      assert (a + b)[k] == a[k];
    }
    if Covered(b, i) {
      var k :| 0 <= k < |b| && b[k].lo <= i < b[k].hi;
      assert (a + b)[|a| + k] == b[k];
    }
  }

  lemma CoveredOne(s: Span, i: int)
    ensures Covered([s], i) <==> s.lo <= i < s.hi
  {
    assert [s][0] == s;
  }

  lemma ZeroedAt(sk: Bytes, lo: nat, hi: nat, i: nat)
    requires lo <= hi <= |sk| && i < |sk|
    ensures Zeroed(sk, lo, hi)[i] == if lo <= i < hi then 0 else sk[i]
  {
  }

  lemma SlotSpansStep(slots: seq<Slot>, compressed: bool, i: int)
    requires slots != []
    ensures Covered(SlotSpans(slots, compressed), i) <==>
      Covered(SlotSpans(slots[1..], compressed), i) ||
      (slots[0].compressed == compressed && slots[0].offset <= i <
        slots[0].offset + if compressed then slots[0].compressedBytes else slots[0].length)
  {
    var s, rest := slots[0], SlotSpans(slots[1..], compressed);
    var here := if s.compressed != compressed then []
      else if !s.compressed then [Span(s.offset, s.offset + s.length)]
      else if s.compressedBytes > 0 then [Span(s.offset, s.offset + s.compressedBytes)] else [];
    assert SlotSpans(slots, compressed) == here + rest;
    CoveredAppend(here, rest, i);
    if here != [] {
      CoveredOne(here[0], i);
    }
  }

  lemma {:induction false} FillRawAt(sk: Bytes, slots: seq<Slot>, len: nat, i: nat)
    requires AllInFile(slots, len) && len <= |sk| && i < |sk|
    ensures FillRaw(sk, slots, len)[i] == if Covered(SlotSpans(slots, false), i) then 0 else sk[i]
    decreases |slots|
  {
    hide Zeroed;
    if slots != [] {
      var s := slots[0];
      assert InFile(s, len);
      SlotSpansStep(slots, false, i);
      if s.compressed {
        FillRawAt(sk, slots[1..], len, i);
      } else {
        ZeroedAt(sk, s.offset, s.offset + s.length, i);
        FillRawAt(Zeroed(sk, s.offset, s.offset + s.length), slots[1..], len, i);
      }
    }
  }

  lemma SynthesizeAt(sk: Bytes, s: Slot, cursor: nat, i: nat)
    requires s.offset + s.compressedBytes <= |sk| && s.headerOffset + 0x50 <= |sk| && i < |sk|
    requires !HeaderByte(s.headerOffset, i)
    ensures Synthesize(sk, s, cursor)[i] == if s.offset <= i < s.offset + s.compressedBytes then 0 else sk[i]
  {
    ZeroedAt(sk, s.offset, s.offset + s.compressedBytes, i);
  }

  lemma {:induction false} FillCompressedAt(sk: Bytes, slots: seq<Slot>, len: nat, cursor: nat, i: nat)
    requires AllInFile(slots, len) && len <= |sk| && i < |sk| && !HeaderAt(slots, i)
    ensures FillCompressed(sk, slots, len, cursor)[i] == if Covered(SlotSpans(slots, true), i) then 0 else sk[i]
    decreases |slots|
  {
    hide Synthesize, FillCompressed, HeaderByte, SlotSpans;
    if slots == [] {
      SynthesizeEnd(sk, len, cursor);
      assert !Covered(SlotSpans([], true), i) by { NoSpans(i); }
    } else {
      var s := slots[0];
      SynthesizeStep(sk, slots, len, cursor);
      SlotSpansStep(slots, true, i);
      assert !HeaderAt(slots[1..], i) by {
        assert forall k :: 0 <= k < |slots[1..]| ==> slots[1..][k] == slots[k + 1];
      }
      if s.compressed {
        SynthesizeAt(sk, s, cursor, i);
        FillCompressedAt(Synthesize(sk, s, cursor), slots[1..], len, cursor + s.length, i);
      } else {
        FillCompressedAt(sk, slots[1..], len, cursor, i);
      }
    }
  }

  lemma NoSpans(i: int)
    ensures !Covered(SlotSpans([], true), i)
  {
  }

  /** Away from header fields, the skeleton is zero on the zero spans and the file elsewhere. */
  lemma SkeletonAt(data: Bytes, slots: seq<Slot>, i: nat)
    requires AllInFile(slots, |data|) && i < |data| + Extra(slots) && !HeaderAt(slots, i)
    ensures SkeletonOf(data, slots)[i] == if i < |data| && !Covered(ZeroSpans(slots, |data|), i) then data[i] else 0
  {
    hide FillRaw, FillCompressed, SlotSpans;
    var raw := FillRaw(data + Zeros(Extra(slots)), slots, |data|);
    FillRawAt(data + Zeros(Extra(slots)), slots, |data|, i);
    FillCompressedAt(raw, slots, |data|, |data|, i);
    var tail := if Extra(slots) > 0 then [Span(|data|, |data| + Extra(slots))] else [];
    CoveredAppend(SlotSpans(slots, false), SlotSpans(slots, true), i);
    CoveredAppend(SlotSpans(slots, false) + SlotSpans(slots, true), tail, i);
    if tail != [] {
      CoveredOne(tail[0], i);
    }
  }

  /** Without compressed slots the skeleton is the file with exactly the slots' bytes zeroed. */
  lemma SkeletonWithoutCompressed(data: Bytes, slots: seq<Slot>)
    requires AllInFile(slots, |data|) && NoneCompressed(slots)
    ensures SkeletonOf(data, slots) == ZeroedOn(data, SlotSpans(slots, false))
    ensures ZeroSpans(slots, |data|) == SlotSpans(slots, false)
  {
    hide SkeletonOf;
    NothingSynthesized(slots);
    assert ZeroSpans(slots, |data|) == SlotSpans(slots, false);
    forall i | 0 <= i < |data|
      ensures SkeletonOf(data, slots)[i] == ZeroedOn(data, SlotSpans(slots, false))[i]
    {
      SkeletonAt(data, slots, i);
    }
  }

  lemma {:induction false} NothingSynthesized(slots: seq<Slot>)
    requires NoneCompressed(slots)
    ensures Extra(slots) == 0 && SlotSpans(slots, true) == []
  {
    if slots != [] {
      NothingSynthesized(slots[1..]);
    }
  }

  // ---- The whole path: skeleton, merged spans, recipe ----

  method SkeletonRecipe(data: Bytes, slots: seq<Slot>, cdc: CdcConfig) returns (recipe: Recipe, skeletonBytes: nat)
    requires cdc.max > 0 && AllInFile(slots, |data|)
    ensures RecipeFor(SkeletonOf(data, slots), ZeroSpans(slots, |data|), cdc, recipe)
    ensures Assemble(recipe.chunks, recipe.layout) == Ok(ZeroedOn(SkeletonOf(data, slots), ZeroSpans(slots, |data|)))
    ensures skeletonBytes == |data| + Extra(slots)
  {
    hide SkeletonOf, ZeroSpans, RecipeFrom, Assemble, ZeroedOn;
    var skeleton, zeroSpans := BuildSkeletonV2(data, slots);
    var spans := MergeSpans(zeroSpans, |skeleton|);
    recipe := BuildRecipe(skeleton, spans, cdc);
    RecipeDenotes(skeleton, spans, cdc);
    SameCoverSameZeros(skeleton, spans, zeroSpans);
    skeletonBytes := |skeleton|;
  }

  lemma SameCoverSameZeros(skel: Bytes, a: seq<Span>, b: seq<Span>)
    requires forall i :: 0 <= i < |skel| ==> (Covered(a, i) <==> Covered(b, i))
    ensures ZeroedOn(skel, a) == ZeroedOn(skel, b)
  {
  }

  ghost predicate Lossless(data: Bytes, slots: seq<Slot>)
    requires AllInFile(slots, |data|)
  {
    ZeroedOn(SkeletonOf(data, slots), ZeroSpans(slots, |data|)) == SkeletonOf(data, slots)
  }

  /** Only header bytes inside a zero span can go wrong. */
  lemma LosslessIffHeaderBytesZero(data: Bytes, slots: seq<Slot>)
    requires AllInFile(slots, |data|)
    ensures Lossless(data, slots) <==>
      forall i :: 0 <= i < |data| && HeaderAt(slots, i) && Covered(ZeroSpans(slots, |data|), i) ==>
        SkeletonOf(data, slots)[i] == 0
  {
    hide SkeletonOf, ZeroSpans, HeaderAt;
    var sk, spans := SkeletonOf(data, slots), ZeroSpans(slots, |data|);
    if Lossless(data, slots) {
      assert forall i :: 0 <= i < |sk| ==> ZeroedOn(sk, spans)[i] == sk[i];
    }
    forall i | 0 <= i < |sk| && Covered(spans, i) && !HeaderAt(slots, i)
      ensures sk[i] == 0
    {
      SkeletonAt(data, slots, i);
    }
    forall i | 0 <= i < |sk| && HeaderAt(slots, i)
      ensures i < |data|
    {
      HeadersInFile(slots, |data|, i);
    }
  }

  lemma HeadersInFile(slots: seq<Slot>, len: nat, i: int)
    requires AllInFile(slots, len) && HeaderAt(slots, i)
    ensures 0 <= i < len
  {
    var k :| 0 <= k < |slots| && slots[k].compressed && HeaderByte(slots[k].headerOffset, i);
    assert InFile(slots[k], len);
  }

  // ---- What a header byte ends up as, read off the file and the slots ----

  function CursorByte(cursor: nat, b: nat): byte {
    if b == 0 then cursor % 256
    else if b == 1 then cursor / 0x100 % 256
    else if b == 2 then cursor / 0x10000 % 256
    else cursor / 0x1000000 % 256
  }

  /** Zero, or made zero by clearing the compression flag. */
  predicate ZeroOnceCleared(v: byte, cleared: bool) { v == 0 || (cleared && v == 8) }

  /**
   * Looking back from the last of `slots`: byte `i` is last written by a pointer field, and holds a zero byte
   * of that slot's cursor, or by a zeroed span, or is the file's own zero. A flag cleared since then makes 8 do.
   */
  ghost predicate EndsZero(data: Bytes, all: seq<Slot>, slots: seq<Slot>, i: nat, cleared: bool)
    requires i < |data|
    decreases |slots|
  {
    if slots == [] then Covered(SlotSpans(all, false), i) || ZeroOnceCleared(data[i], cleared)
    else
      var init, s := slots[..|slots| - 1], slots[|slots| - 1];
      if !s.compressed then EndsZero(data, all, init, i, cleared)
      else if s.headerOffset + 0x48 <= i <= s.headerOffset + 0x4b then
        ZeroOnceCleared(CursorByte(|data| + Extra(init), i - s.headerOffset - 0x48), cleared)
      else
        || s.offset <= i < s.offset + s.compressedBytes
        || EndsZero(data, all, init, i, cleared || i == s.headerOffset + 0x12)
  }

  lemma {:induction false} ExtraSnoc(slots: seq<Slot>, s: Slot)
    ensures Extra(slots + [s]) == Extra(slots) + if s.compressed then s.length else 0
  {
    if slots == [] {
      assert slots + [s] == [s] && [s][1..] == [];
    } else {
      assert (slots + [s])[1..] == slots[1..] + [s];
      ExtraSnoc(slots[1..], s);
    }
  }

  lemma {:induction false} FillSnoc(sk: Bytes, slots: seq<Slot>, s: Slot, len: nat, cursor: nat)
    requires AllInFile(slots + [s], len) && len <= |sk|
    ensures AllInFile(slots, len) && InFile(s, len)
    ensures var filled := FillCompressed(sk, slots, len, cursor);
      FillCompressed(sk, slots + [s], len, cursor) ==
        if s.compressed then Synthesize(filled, s, cursor + Extra(slots)) else filled
    decreases |slots|
  {
    hide Synthesize;
    var all := slots + [s];
    assert all[|slots|] == s;
    assert forall k :: 0 <= k < |slots| ==> all[k] == slots[k];
    if slots == [] {
      assert all == [s] && all[1..] == [];
    } else {
      assert all[1..] == slots[1..] + [s];
      var first := slots[0];
      assert InFile(first, len);
      if first.compressed {
        FillSnoc(Synthesize(sk, first, cursor), slots[1..], s, len, cursor + first.length);
      } else {
        FillSnoc(sk, slots[1..], s, len, cursor);
      }
    }
  }

  /** One slot's effect on a byte: the pointer field, the span, the cleared flag. */
  lemma SynthesizeByte(sk: Bytes, s: Slot, cursor: nat, i: nat)
    requires s.offset + s.compressedBytes <= |sk| && s.headerOffset + 0x50 <= |sk| && i < |sk|
    ensures Synthesize(sk, s, cursor)[i] ==
      if s.headerOffset + 0x48 <= i <= s.headerOffset + 0x4b then CursorByte(cursor, i - s.headerOffset - 0x48)
      else
        var v: byte := if s.offset <= i < s.offset + s.compressedBytes then 0 else sk[i];
        if i == s.headerOffset + 0x12 && v / 8 % 2 == 1 then v - 8 else v
  {
    hide Zeroed;
    ZeroedAt(sk, s.offset, s.offset + s.compressedBytes, i);
  }

  lemma {:induction false} EndsZeroIs(data: Bytes, all: seq<Slot>, slots: seq<Slot>, sk: Bytes, i: nat, cleared: bool)
    requires AllInFile(slots, |data|) && i < |data| <= |sk|
    requires sk[i] == if Covered(SlotSpans(all, false), i) then 0 else data[i]
    ensures EndsZero(data, all, slots, i, cleared) <==>
      ZeroOnceCleared(FillCompressed(sk, slots, |data|, |data|)[i], cleared)
    decreases |slots|
  {
    hide Synthesize, FillCompressed, Extra, SlotSpans, CursorByte;
    if slots == [] {
      SynthesizeEnd(sk, |data|, |data|);
    } else {
      var init, s := slots[..|slots| - 1], slots[|slots| - 1];
      assert slots == init + [s];
      FillSnoc(sk, init, s, |data|, |data|);
      var filled := FillCompressed(sk, init, |data|, |data|);
      if s.compressed {
        SynthesizeByte(filled, s, |data| + Extra(init), i);
        EndsZeroIs(data, all, init, sk, i, cleared || i == s.headerOffset + 0x12);
      } else {
        EndsZeroIs(data, all, init, sk, i, cleared);
      }
    }
  }

  /**
   * The streamed recipe gives back the skeleton exactly when, for each header byte inside a zero span, the
   * last write to it leaves zero: a condition on the file and the slots alone.
   */
  lemma LosslessIffHeadersSurvive(data: Bytes, slots: seq<Slot>)
    requires AllInFile(slots, |data|)
    ensures Lossless(data, slots) <==>
      forall i: nat :: i < |data| && HeaderAt(slots, i) && Covered(ZeroSpans(slots, |data|), i) ==>
        EndsZero(data, slots, slots, i, false)
  {
    hide FillRaw, FillCompressed, ZeroSpans, HeaderAt, EndsZero, Lossless;
    LosslessIffHeaderBytesZero(data, slots);
    forall i: nat | i < |data|
      ensures SkeletonOf(data, slots)[i] == 0 <==> EndsZero(data, slots, slots, i, false)
    {
      var padded := data + Zeros(Extra(slots));
      FillRawAt(padded, slots, |data|, i);
      EndsZeroIs(data, slots, slots, FillRaw(padded, slots, |data|), i, false);
    }
  }

  /** What the caller can check beforehand: no header field lies in a zero span. */
  lemma HeadersOutsideSpansAreSafe(data: Bytes, slots: seq<Slot>)
    requires AllInFile(slots, |data|)
    requires forall i :: 0 <= i < |data| && HeaderAt(slots, i) ==> !Covered(ZeroSpans(slots, |data|), i)
    ensures Lossless(data, slots)
  {
    LosslessIffHeaderBytesZero(data, slots);
  }

}
