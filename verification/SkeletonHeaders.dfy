/**
 * What a player finds in a skeleton: the header of a streamed compressed sample says uncompressed, and points
 * to a region of zeros of the decoded length, unless a later slot writes over it.
 */
module SkeletonHeaders {
  import opened Basics
  import opened Spans
  import opened Skeleton
  import opened SkeletonLaws
  import opened Formats

  /** Slot `s` writes byte `i`. */
  predicate Writes(s: Slot, i: nat) {
    s.compressed && (HeaderByte(s.headerOffset, i) || s.offset <= i < s.offset + s.compressedBytes)
  }

  /** No slot after `k` writes byte `i`. */
  ghost predicate LastToWrite(slots: seq<Slot>, k: nat, i: nat) {
    forall j :: k < j < |slots| ==> !Writes(slots[j], i)
  }

  /** What slots leave alone stays as it was. */
  lemma {:induction false} LeftAlone(sk: Bytes, slots: seq<Slot>, len: nat, cursor: nat, k: nat, i: nat)
    requires AllInFile(slots, len) && i < len <= |sk| && k < |slots| && LastToWrite(slots, k, i)
    ensures AllInFile(slots[..k + 1], len)
    ensures FillCompressed(sk, slots, len, cursor)[i] == FillCompressed(sk, slots[..k + 1], len, cursor)[i]
    decreases |slots|
  {
    hide Synthesize, FillCompressed;
    if k + 1 < |slots| {
      var init, s := slots[..|slots| - 1], slots[|slots| - 1];
      assert slots == init + [s] && init[..k + 1] == slots[..k + 1];
      FillSnoc(sk, init, s, len, cursor);
      assert !Writes(s, i);
      if s.compressed {
        SynthesizeByte(FillCompressed(sk, init, len, cursor), s, cursor + Extra(init), i);
      }
      LeftAlone(sk, init, len, cursor, k, i);
    } else {
      assert slots[..k + 1] == slots;
    }
  }

  /** The byte of a pointer field, as its own slot leaves it. */
  lemma PointerByte(data: Bytes, slots: seq<Slot>, k: nat, b: nat)
    requires AllInFile(slots, |data|) && k < |slots| && slots[k].compressed && b < 4
    requires LastToWrite(slots, k, slots[k].headerOffset + 0x48 + b)
    ensures slots[k].headerOffset + 0x4c <= |data|
    ensures SkeletonOf(data, slots)[slots[k].headerOffset + 0x48 + b] == CursorByte(|data| + Extra(slots[..k]), b)
  {
    hide Synthesize, FillCompressed, FillRaw;
    assert InFile(slots[k], |data|);
    var i := slots[k].headerOffset + 0x48 + b;
    var sk := FillRaw(data + Zeros(Extra(slots)), slots, |data|);
    LeftAlone(sk, slots, |data|, |data|, k, i);
    assert slots[..k + 1] == slots[..k] + [slots[k]];
    FillSnoc(sk, slots[..k], slots[k], |data|, |data|);
    SynthesizeByte(FillCompressed(sk, slots[..k], |data|, |data|), slots[k], |data| + Extra(slots[..k]), i);
  }

  lemma BytesOfWord(v: nat)
    requires v < 0x1_0000_0000
    ensures CursorByte(v, 0) as int + 0x100 * CursorByte(v, 1) as int
      + 0x10000 * (CursorByte(v, 2) as int + 0x100 * CursorByte(v, 3) as int) == v
  {
    var q1 := v / 0x100;
    var q2 := q1 / 0x100;
    var q3 := q2 / 0x100;
    assert v / 0x10000 == q2 && v / 0x1000000 == q3 && q3 < 0x100;
    assert v == v % 0x100 + 0x100 * q1 && q1 == q1 % 0x100 + 0x100 * q2 && q2 == q2 % 0x100 + 0x100 * q3;
  }

  /** Nobody writes over the fields of slot `k`'s header after it. */
  ghost predicate HeaderStands(slots: seq<Slot>, k: nat)
    requires k < |slots|
  {
    forall i: nat :: HeaderByte(slots[k].headerOffset, i) ==> LastToWrite(slots, k, i)
  }

  /** The header points past the file, where the regions of the slots before it end. */
  lemma CompressedIsRepointed(data: Bytes, slots: seq<Slot>, k: nat)
    requires AllInFile(slots, |data|) && k < |slots| && slots[k].compressed && HeaderStands(slots, k)
    requires |data| + Extra(slots[..k]) < 0x1_0000_0000
    ensures U32le(SkeletonOf(data, slots), slots[k].headerOffset + 0x48) == |data| + Extra(slots[..k])
  {
    hide SkeletonOf, CursorByte, LastToWrite;
    var at, v := slots[k].headerOffset + 0x48, |data| + Extra(slots[..k]);
    PointerByte(data, slots, k, 0);
    PointerByte(data, slots, k, 1);
    PointerByte(data, slots, k, 2);
    PointerByte(data, slots, k, 3);
    BytesOfWord(v);
    FieldReads(SkeletonOf(data, slots), at, v);
  }

  lemma FieldReads(sk: Bytes, at: nat, v: nat)
    requires at + 4 <= |sk| && forall b: nat :: b < 4 ==> sk[at + b] == CursorByte(v, b)
    ensures U32le(sk, at) == CursorByte(v, 0) as int + 0x100 * CursorByte(v, 1) as int
      + 0x10000 * (CursorByte(v, 2) as int + 0x100 * CursorByte(v, 3) as int)
  {
    hide CursorByte;
    assert sk[at + 0] == CursorByte(v, 0) && sk[at + 1] == CursorByte(v, 1);
    assert sk[at + 2] == CursorByte(v, 2) && sk[at + 3] == CursorByte(v, 3);
  }

  /** And its flags no longer say compressed. */
  lemma CompressionIsCleared(data: Bytes, slots: seq<Slot>, k: nat)
    requires AllInFile(slots, |data|) && k < |slots| && slots[k].compressed && HeaderStands(slots, k)
    ensures slots[k].headerOffset + 0x12 < |data| && SkeletonOf(data, slots)[slots[k].headerOffset + 0x12] / 8 % 2 == 0
  {
    hide Synthesize, FillCompressed, FillRaw;
    assert InFile(slots[k], |data|);
    var i := slots[k].headerOffset + 0x12;
    var sk := FillRaw(data + Zeros(Extra(slots)), slots, |data|);
    LeftAlone(sk, slots, |data|, |data|, k, i);
    assert slots[..k + 1] == slots[..k] + [slots[k]];
    FillSnoc(sk, slots[..k], slots[k], |data|, |data|);
    SynthesizeByte(FillCompressed(sk, slots[..k], |data|, |data|), slots[k], |data| + Extra(slots[..k]), i);
  }

  lemma {:induction false} RegionEnds(slots: seq<Slot>, k: nat)
    requires k < |slots|
    ensures Extra(slots[..k]) + (if slots[k].compressed then slots[k].length else 0) <= Extra(slots)
    decreases |slots|
  {
    if k > 0 {
      RegionEnds(slots[1..], k - 1);
      assert slots[..k][1..] == slots[1..][..k - 1];
    } else {
      assert slots[..0] == [];
    }
  }

  /** The region it points to is there, of the decoded length, and all zero. */
  lemma RegionIsZero(data: Bytes, slots: seq<Slot>, k: nat)
    requires AllInFile(slots, |data|) && k < |slots| && slots[k].compressed
    ensures var at := |data| + Extra(slots[..k]);
      && at + slots[k].length <= |SkeletonOf(data, slots)|
      && forall i :: at <= i < at + slots[k].length ==> SkeletonOf(data, slots)[i] == 0
  {
    hide SkeletonOf, ZeroSpans, SlotSpans, HeaderAt;
    RegionEnds(slots, k);
    var at := |data| + Extra(slots[..k]);
    forall i | at <= i < at + slots[k].length
      ensures SkeletonOf(data, slots)[i] == 0
    {
      AppendedIsCovered(slots, |data|, i);
      if HeaderAt(slots, i) {
        HeadersInFile(slots, |data|, i);
      }
      SkeletonAt(data, slots, i);
    }
  }

  lemma AppendedIsCovered(slots: seq<Slot>, len: nat, i: nat)
    requires len <= i < len + Extra(slots)
    ensures Covered(ZeroSpans(slots, len), i)
  {
    hide SlotSpans;
    var tail := [Span(len, len + Extra(slots))];
    assert tail[0].lo <= i < tail[0].hi;
    CoveredAppend(SlotSpans(slots, false) + SlotSpans(slots, true), tail, i);
  }
}
