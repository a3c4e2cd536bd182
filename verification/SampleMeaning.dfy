/**
 * What the sample encodings are, in samples and not in bytes: split into channels, offset by half the
 * range, or written as differences. Every mask is one of these readings, and a slot written in any of
 * them is streamed.
 */
module SampleMeaning {
  import opened Basics
  import opened Skeleton
  import opened SampleTransform
  import opened TransformLaws
  import opened Repack

  // ---- Samples and bytes ----

  /** How many values a sample takes. */
  function Range(w: Width): nat { if w == 1 then 256 else 65536 }

  ghost predicate AreSamples(s: seq<nat>, w: Width) {
    forall k :: 0 <= k < |s| ==> s[k] < Range(w)
  }

  /** Samples as bytes, least significant first. */
  function Pack(s: seq<nat>, w: Width): (d: Bytes)
    requires AreSamples(s, w)
    ensures |d| == Times(w, |s|)
  {
    seq(Times(w, |s|), i requires 0 <= i < Times(w, |s|) => ByteOf(s[Over(w, i)], w, Rem(w, i)))
  }

  /** Byte `b` of a sample. */
  function ByteOf(v: nat, w: Width, b: nat): byte
    requires v < Range(w)
  {
    if w == 1 then v else if b == 0 then v % 256 else v / 256
  }

  function SampleAt(d: Bytes, w: Width, k: nat): (v: nat)
    requires Times(w, k + 1) <= |d|
    ensures v < Range(w)
  {
    if w == 1 then d[k] else d[2 * k] as int + 256 * d[2 * k + 1] as int
  }

  /** Every buffer of whole samples is the bytes of its samples. */
  lemma EveryBufferPacks(d: Bytes, w: Width) returns (s: seq<nat>)
    requires WholeSamples(|d|, w)
    ensures AreSamples(s, w) && Pack(s, w) == d
  {
    s := seq(Over(w, |d|), k requires 0 <= k < Over(w, |d|) => SampleAt(d, w, k));
    forall i | 0 <= i < |d|
      ensures Pack(s, w)[i] == d[i]
    {
      if w == 2 {
        assert s[i / 2] == d[2 * (i / 2)] as int + 256 * d[2 * (i / 2) + 1] as int;
      }
    }
  }

  lemma PackAppend(a: seq<nat>, b: seq<nat>, w: Width)
    requires AreSamples(a, w) && AreSamples(b, w)
    ensures AreSamples(a + b, w) && Pack(a + b, w) == Pack(a, w) + Pack(b, w)
  {
    var whole, parts := Pack(a + b, w), Pack(a, w) + Pack(b, w);
    forall i | 0 <= i < |whole|
      ensures whole[i] == parts[i]
    {
      if w == 2 && i >= 2 * |a| {
        var j := i - 2 * |a|;
        assert i / 2 == |a| + j / 2 && i % 2 == j % 2;
      }
    }
  }

  // ---- The three stages on samples ----

  /** Half the range on top, modulo the range: signed samples in offset binary, and back. */
  function Shifted(v: nat, w: Width): nat { (v + Range(w) / 2) % Range(w) }

  function ShiftAll(s: seq<nat>, w: Width): (r: seq<nat>)
    ensures |r| == |s| && AreSamples(r, w)
  {
    seq(|s|, k requires 0 <= k < |s| => Shifted(s[k], w))
  }

  function Less(v: nat, p: nat, w: Width): (r: nat)
    ensures r < Range(w)
  {
    (v - p) % Range(w)
  }

  /** Each sample less the one before it, modulo the range. */
  function Differences(s: seq<nat>, w: Width): (r: seq<nat>)
    ensures |r| == |s| && AreSamples(r, w)
  {
    seq(|s|, k requires 0 <= k < |s| => Less(s[k], if k == 0 then 0 else s[k - 1], w))
  }

  /** One channel of two, taken from alternating samples. */
  function ChannelOf(s: seq<nat>, c: nat): (r: seq<nat>)
    requires |s| % 2 == 0 && c < 2
    ensures |r| == |s| / 2
  {
    seq(|s| / 2, f requires 0 <= f < |s| / 2 => s[2 * f + c])
  }

  lemma PackedByte(s: seq<nat>, w: Width, k: nat)
    requires AreSamples(s, w) && k < |s|
    ensures var d := Pack(s, w); SampleAt(d, w, k) == s[k]
  {
  }

  lemma SignShifts(s: seq<nat>, w: Width)
    requires AreSamples(s, w)
    ensures SignFlip(Pack(s, w), w) == Pack(ShiftAll(s, w), w)
  {
    forall i | 0 <= i < |Pack(s, w)|
      ensures SignFlip(Pack(s, w), w)[i] == Pack(ShiftAll(s, w), w)[i]
    {
      if w == 2 {
        TopByteFlips(s[i / 2]);
      }
    }
  }

  lemma TopByteFlips(v: nat)
    requires v < 65536
    ensures var x := Shifted(v, 2); x % 256 == v % 256 && x / 256 == Flip(v / 256)
  {
    var hi, lo := v / 256, v % 256;
    assert v + 32768 == 256 * (hi + 128) + lo;
    if v < 32768 {
      assert Shifted(v, 2) == 256 * (hi + 128) + lo;
    } else {
      assert Shifted(v, 2) == 256 * (hi - 128) + lo;
    }
  }

  lemma DeltaDiffers(s: seq<nat>, w: Width)
    requires AreSamples(s, w)
    ensures DeltaChannel(Pack(s, w), w) == Pack(Differences(s, w), w)
  {
    var d := Pack(s, w);
    forall i | 0 <= i < |d|
      ensures DeltaChannel(d, w)[i] == Pack(Differences(s, w), w)[i]
    {
      assert DeltaChannel(d, w)[i] == DeltaByte(d, w, i);
      if w == 2 {
        PackedWords(s, i / 2);
      }
    }
  }

  lemma PackedWords(s: seq<nat>, q: nat)
    requires AreSamples(s, 2) && q < |s|
    ensures Word(Pack(s, 2), q) == s[q] && (q > 0 ==> Word(Pack(s, 2), q - 1) == s[q - 1])
    ensures WordDelta(Pack(s, 2), q) == Differences(s, 2)[q]
  {
    hide Pack, Word, Differences;
    PackedWord(s, q);
    if q > 0 {
      PackedWord(s, q - 1);
    }
    DifferenceAt(s, 2, q);
  }

  lemma PackedWord(s: seq<nat>, q: nat)
    requires AreSamples(s, 2) && q < |s|
    ensures Word(Pack(s, 2), q) == s[q]
  {
    hide Pack;
    PackByte(s, 2, q, 0);
    PackByte(s, 2, q, 1);
  }

  lemma SplitsChannels(s: seq<nat>, w: Width)
    requires AreSamples(s, w) && |s| % 2 == 0
    ensures AreSamples(ChannelOf(s, 0) + ChannelOf(s, 1), w)
    ensures Deint(Pack(s, w), w) == Pack(ChannelOf(s, 0) + ChannelOf(s, 1), w)
  {
    hide Deint;
    var d, t := Pack(s, w), ChannelOf(s, 0) + ChannelOf(s, 1);
    forall j | 0 <= j < |d|
      ensures Deint(d, w)[j] == Pack(t, w)[j]
    {
      DeintIsPlanar(d, w, j);
      FromPlanarByte(s, w, j);
    }
  }

  lemma FromPlanarByte(s: seq<nat>, w: Width, j: nat)
    requires AreSamples(s, w) && |s| % 2 == 0 && j < Times(w, |s|)
    ensures var t := ChannelOf(s, 0) + ChannelOf(s, 1);
      AreSamples(t, w) && FromPlanar(Times(w, |s|), w, j) < Times(w, |s|)
      && Pack(s, w)[FromPlanar(Times(w, |s|), w, j)] == Pack(t, w)[j]
  {
    var k, b := Over(w, j), Rem(w, j);
    assert j == Times(w, k) + b && b < w && k < |s|;
    hide FromPlanar, ChannelOf, Pack, ByteOf, Over, Rem, Times, Source;
    SplitSample(s, w, k);
    FromPlanarIs(|s|, w, k, b);
    PackByte(s, w, Source(|s|, k), b);
    PackByte(ChannelOf(s, 0) + ChannelOf(s, 1), w, k, b);
  }

  /** Where the sample at planar position `k` of `n` comes from. */
  function Source(n: nat, k: nat): (i: nat)
    requires n % 2 == 0 && k < n
    ensures i < n
  {
    if k < n / 2 then 2 * k else 2 * (k - n / 2) + 1
  }

  lemma SplitSample(s: seq<nat>, w: Width, k: nat)
    requires AreSamples(s, w) && |s| % 2 == 0 && k < |s|
    ensures var t := ChannelOf(s, 0) + ChannelOf(s, 1);
      |t| == |s| && AreSamples(t, w) && t[k] == s[Source(|s|, k)]
  {
  }

  lemma FromPlanarIs(n: nat, w: Width, k: nat, b: nat)
    requires n % 2 == 0 && k < n && b < w
    ensures FromPlanar(Times(w, n), w, Times(w, k) + b) == Times(w, Source(n, k)) + b
  {
    if w == 2 {
      var f := if k < n / 2 then k else k - n / 2;
      assert (2 * n) / 2 == n && (2 * f + b) / 2 == f && (2 * f + b) % 2 == b;
    }
  }

  lemma PackByte(s: seq<nat>, w: Width, k: nat, b: nat)
    requires AreSamples(s, w) && k < |s| && b < w
    ensures Times(w, k) + b < Times(w, |s|) && Pack(s, w)[Times(w, k) + b] == ByteOf(s[k], w, b)
  {
    hide ByteOf;
    assert Over(w, Times(w, k) + b) == k && Rem(w, Times(w, k) + b) == b;
  }

  // ---- Every mask ----

  /** The sample at position `k` on disk before signs and differences: channel by channel when split. */
  function Placed(s: seq<nat>, split: bool, k: nat): nat
    requires k < |s| && (split ==> |s| % 2 == 0)
  {
    if !split then s[k] else if k < |s| / 2 then s[2 * k] else s[2 * (k - |s| / 2) + 1]
  }

  function Offset(v: nat, sign: bool, w: Width): nat { if sign then (v + Range(w) / 2) % Range(w) else v }

  /** Sample `k` on disk: placed, offset by half the range, and less its predecessor in its channel. */
  function OnDiskSample(s: seq<nat>, enc: nat, stereo: bool, w: Width, k: nat): nat
    requires k < |s| && (stereo ==> |s| % 2 == 0)
  {
    var split := HasDeint(enc) && stereo;
    var v := Offset(Placed(s, split, k), HasSign(enc), w);
    if !HasDelta(enc) then v
    else if k == 0 || (split && k == |s| / 2) then v
    else (v - Offset(Placed(s, split, k - 1), HasSign(enc), w)) % Range(w)
  }

  function OnDisk(s: seq<nat>, enc: nat, stereo: bool, w: Width): (r: seq<nat>)
    requires AreSamples(s, w) && (stereo ==> |s| % 2 == 0)
    ensures |r| == |s| && AreSamples(r, w)
  {
    seq(|s|, k requires 0 <= k < |s| => OnDiskSample(s, enc, stereo, w, k))
  }

  function SplitOr(s: seq<nat>, split: bool): (r: seq<nat>)
    requires split ==> |s| % 2 == 0
    ensures |r| == |s|
  {
    if split then ChannelOf(s, 0) + ChannelOf(s, 1) else s
  }

  function ShiftOr(s: seq<nat>, sign: bool, w: Width): (r: seq<nat>)
    ensures |r| == |s|
  {
    if sign then ShiftAll(s, w) else s
  }

  function DifferOr(s: seq<nat>, delta: bool, split: bool, w: Width): (r: seq<nat>)
    requires split ==> |s| % 2 == 0
    ensures |r| == |s|
  {
    if !delta then s
    else if split then Differences(s[..|s| / 2], w) + Differences(s[|s| / 2..], w)
    else Differences(s, w)
  }

  lemma StagesOnSamples(s: seq<nat>, sign: bool, delta: bool, split: bool, w: Width)
    requires AreSamples(s, w) && (split ==> |s| % 2 == 0)
    ensures var r := DifferOr(ShiftOr(SplitOr(s, split), sign, w), delta, split, w);
      AreSamples(r, w) && ApplyStages(sign, delta, split, Pack(s, w), w) == Pack(r, w)
  {
    hide Deint, SignFlip, DeltaChannel, Pack, Differences, ShiftAll, ChannelOf;
    if split {
      SplitsChannels(s, w);
    }
    var x := SplitOr(s, split);
    SignShifts(x, w);
    var y := ShiftOr(x, sign, w);
    if delta {
      if split {
        DeltaOfHalves(y[..|y| / 2], y[|y| / 2..], w);
        assert y[..|y| / 2] + y[|y| / 2..] == y;
      } else {
        DeltaDiffers(y, w);
      }
    }
  }

  lemma DeltaOfHalves(a: seq<nat>, b: seq<nat>, w: Width)
    requires |a| == |b| && AreSamples(a, w) && AreSamples(b, w)
    ensures AreSamples(a + b, w) && AreSamples(Differences(a, w) + Differences(b, w), w)
    ensures DeltaStage(Pack(a + b, w), w, true) == Pack(Differences(a, w) + Differences(b, w), w)
  {
    hide DeltaChannel, Differences;
    PackAppend(a, b, w);
    PackAppend(Differences(a, w), Differences(b, w), w);
    DeltaDiffers(a, w);
    DeltaDiffers(b, w);
    hide Pack;
    HalvesOf(Pack(a, w), Pack(b, w));
  }

  lemma StagesAreOnDisk(s: seq<nat>, enc: nat, stereo: bool, w: Width)
    requires AreSamples(s, w) && (stereo ==> |s| % 2 == 0)
    ensures var split := HasDeint(enc) && stereo;
      DifferOr(ShiftOr(SplitOr(s, split), HasSign(enc), w), HasDelta(enc), split, w) == OnDisk(s, enc, stereo, w)
  {
    hide HasDeint, HasSign, HasDelta, OnDisk, DifferOr, ShiftOr, SplitOr;
    var split := HasDeint(enc) && stereo;
    var z := DifferOr(ShiftOr(SplitOr(s, split), HasSign(enc), w), HasDelta(enc), split, w);
    forall k | 0 <= k < |s|
      ensures z[k] == OnDisk(s, enc, stereo, w)[k]
    {
      StagesSample(s, HasSign(enc), HasDelta(enc), split, w, k);
      OnDiskAt(s, enc, stereo, w, k);
    }
  }

  lemma OnDiskAt(s: seq<nat>, enc: nat, stereo: bool, w: Width, k: nat)
    requires AreSamples(s, w) && (stereo ==> |s| % 2 == 0) && k < |s|
    ensures OnDisk(s, enc, stereo, w)[k] == OnDiskSample(s, enc, stereo, w, k)
  {
  }

  lemma StagesSample(s: seq<nat>, sign: bool, delta: bool, split: bool, w: Width, k: nat)
    requires AreSamples(s, w) && (split ==> |s| % 2 == 0) && k < |s|
    ensures var v := Offset(Placed(s, split, k), sign, w);
      DifferOr(ShiftOr(SplitOr(s, split), sign, w), delta, split, w)[k] ==
      if !delta then v
      else if k == 0 || (split && k == |s| / 2) then v
      else (v - Offset(Placed(s, split, k - 1), sign, w)) % Range(w)
  {
    var y := ShiftOr(SplitOr(s, split), sign, w);
    ShiftedSample(s, sign, split, w, k);
    if k > 0 {
      ShiftedSample(s, sign, split, w, k - 1);
    }
    hide SplitOr, ShiftOr, Placed, Offset;
    DifferAt(y, delta, split, w, k);
  }

  lemma DifferAt(y: seq<nat>, delta: bool, split: bool, w: Width, k: nat)
    requires (split ==> |y| % 2 == 0) && k < |y| && y[k] < Range(w)
    ensures DifferOr(y, delta, split, w)[k] ==
      if !delta || k == 0 || (split && k == |y| / 2) then y[k] else (y[k] - y[k - 1]) % Range(w)
  {
    hide Differences;
    var h := |y| / 2;
    if delta && split {
      if k < h {
        DifferenceAt(y[..h], w, k);
      } else {
        DifferenceAt(y[h..], w, k - h);
      }
    } else {
      DifferenceAt(y, w, k);
    }
  }

  lemma DifferenceAt(y: seq<nat>, w: Width, k: nat)
    requires k < |y| && y[k] < Range(w)
    ensures Differences(y, w)[k] == if k == 0 then y[0] else (y[k] - y[k - 1]) % Range(w)
  {
  }

  lemma ShiftedSample(s: seq<nat>, sign: bool, split: bool, w: Width, k: nat)
    requires AreSamples(s, w) && (split ==> |s| % 2 == 0) && k < |s|
    ensures ShiftOr(SplitOr(s, split), sign, w)[k] == Offset(Placed(s, split, k), sign, w) < Range(w)
  {
    assert SplitOr(s, split)[k] == Placed(s, split, k);
  }

  /**
   * What a mask means. Whole frames of any samples, 8 or 16 bit: the transform writes each sample where its
   * channel goes, offset by half the range and less its predecessor as the mask says.
   */
  lemma EncMeans(enc: nat, s: seq<nat>, bitDepth: int, channels: int)
    requires AreSamples(s, WidthOf(bitDepth)) && (Stereo(channels) ==> |s| % 2 == 0)
    ensures var w := WidthOf(bitDepth);
      ApplyEncSpec(enc, Pack(s, w), bitDepth, channels) == Pack(OnDisk(s, enc, Stereo(channels), w), w)
  {
    hide ApplyStages, Pack, OnDisk, SplitOr, ShiftOr, DifferOr;
    var w, split := WidthOf(bitDepth), HasDeint(enc) && Stereo(channels);
    StagesOnSamples(s, HasSign(enc), HasDelta(enc), split, w);
    StagesAreOnDisk(s, enc, Stereo(channels), w);
  }

  // ---- What is streamed ----

  /** The slot's bytes in the file are the samples `s` written under mask `enc`. */
  ghost predicate WrittenAs(data: Bytes, slot: Slot, s: seq<nat>, enc: nat) {
    && AreSamples(s, WidthOf(slot.bitDepth)) && (Stereo(slot.channels) ==> |s| % 2 == 0)
    && slot.offset + slot.length <= |data|
    && OnDiskBytes(data, slot) == Pack(OnDisk(s, enc, Stereo(slot.channels), WidthOf(slot.bitDepth)), WidthOf(slot.bitDepth))
  }

  /** A slot whose samples the file holds in any of the eight ways is streamed from its dump, with that mask or an earlier one. */
  lemma WrittenIsStreamed(data: Bytes, slot: Slot, s: seq<nat>, enc: nat, decoded: seq<Dump>, d: Dump)
    requires WrittenAs(data, slot, s, enc) && enc < 8 && s != []
    requires DumpFor(decoded, slot.index) == Some(d) && d.data == Pack(s, WidthOf(slot.bitDepth))
    ensures Streamable(data, slot, decoded)
    ensures forall p: Pick :: PickIs(data, slot, decoded, p) ==> p.enc <= enc
  {
    hide DumpFor, ApplyEncSpec, OnDisk, Pack;
    EncMeans(enc, s, slot.bitDepth, slot.channels);
    assert Reproduces(enc, d.data, OnDiskBytes(data, slot), slot);
  }

  /** Offset binary, as unsigned formats have it: picked with mask 0 or 1. */
  lemma OffsetBinaryIsStreamed(data: Bytes, slot: Slot, s: seq<nat>, decoded: seq<Dump>, d: Dump)
    requires AreSamples(s, WidthOf(slot.bitDepth)) && s != [] && (Stereo(slot.channels) ==> |s| % 2 == 0)
    requires slot.offset + slot.length <= |data|
    requires var w := WidthOf(slot.bitDepth);
      OnDiskBytes(data, slot) == Pack(seq(|s|, k requires 0 <= k < |s| => (s[k] + Range(w) / 2) % Range(w)), w)
    requires DumpFor(decoded, slot.index) == Some(d) && d.data == Pack(s, WidthOf(slot.bitDepth))
    ensures Streamable(data, slot, decoded)
    ensures forall p: Pick :: PickIs(data, slot, decoded, p) ==> p.enc <= 1
  {
    hide DumpFor, Streamable, PickIs, Pack;
    var w := WidthOf(slot.bitDepth);
    assert OnDisk(s, 1, Stereo(slot.channels), w) == seq(|s|, k requires 0 <= k < |s| => (s[k] + Range(w) / 2) % Range(w));
    WrittenIsStreamed(data, slot, s, 1, decoded, d);
  }
}
