/**
 * The transform is a bijection on whole frames, with the inverse written out, so the stored PCM and
 * the on-disk bytes determine each other; and the lengths on which the desktop client computes the same.
 */
module TransformLaws {
  import opened Basics
  import opened SampleTransform

  // ---- Inverses of the three stages ----

  /** The interleaved position of planar byte `j`, and the planar position of interleaved byte `i`. */
  function FromPlanar(len: nat, w: Width, j: nat): nat {
    if j < len / 2 then Times(w, 2 * Over(w, j)) + Rem(w, j)
    else Times(w, 2 * Over(w, j - len / 2) + 1) + Rem(w, j - len / 2)
  }

  function ToPlanar(len: nat, w: Width, i: nat): nat {
    var u := Over(w, i);
    (if u % 2 == 0 then 0 else len / 2) + Times(w, u / 2) + Rem(w, i)
  }

  lemma ToThenFromPlanar(len: nat, w: Width, i: nat)
    requires WholePairs(len, w) && i < len
    ensures ToPlanar(len, w, i) < len && FromPlanar(len, w, ToPlanar(len, w, i)) == i
  {
    if w == 1 {
      ToThenFromBytes(len, i);
    } else {
      ToThenFromWords(len, i);
    }
  }

  lemma ToThenFromBytes(len: nat, i: nat)
    requires len % 2 == 0 && i < len
    ensures ToPlanar(len, 1, i) < len && FromPlanar(len, 1, ToPlanar(len, 1, i)) == i
  {
  }

  lemma ToThenFromWords(len: nat, i: nat)
    requires len % 4 == 0 && i < len
    ensures ToPlanar(len, 2, i) < len && FromPlanar(len, 2, ToPlanar(len, 2, i)) == i
  {
    var f, c, b := i / 4, i / 2 % 2, i % 2;
    assert i == 4 * f + 2 * c + b && i / 2 == 2 * f + c;
    assert ToPlanar(len, 2, i) == c * (len / 2) + 2 * f + b;
    assert 2 * f + b < len / 2;
    assert (2 * f + b) / 2 == f && (2 * f + b) % 2 == b;
  }

  lemma FromThenToPlanar(len: nat, w: Width, j: nat)
    requires WholePairs(len, w) && j < len
    ensures FromPlanar(len, w, j) < len && ToPlanar(len, w, FromPlanar(len, w, j)) == j
  {
    var c := if j < len / 2 then 0 else 1;
    var k := j - c * (len / 2);
    var f, b := Over(w, k), Rem(w, k);
    assert k == Times(w, f) + b && k < len / 2;
    assert FromPlanar(len, w, j) == Times(w, 2 * f + c) + b;
    assert Over(w, Times(w, 2 * f + c) + b) == 2 * f + c && Rem(w, Times(w, 2 * f + c) + b) == b;
  }

  lemma PlanarPositionsInvert(len: nat, w: Width, i: nat)
    requires WholePairs(len, w) && i < len
    ensures ToPlanar(len, w, i) < len && FromPlanar(len, w, ToPlanar(len, w, i)) == i
    ensures FromPlanar(len, w, i) < len && ToPlanar(len, w, FromPlanar(len, w, i)) == i
  {
    ToThenFromPlanar(len, w, i);
    FromThenToPlanar(len, w, i);
  }

  /** All of channel 0 then all of channel 1, back to alternating samples. */
  function Interleave(x: Bytes, w: Width): (r: Bytes)
    requires WholePairs(|x|, w)
    ensures |r| == |x|
  {
    seq(|x|, i requires 0 <= i < |x| => PlanarPositionsInvert(|x|, w, i); x[ToPlanar(|x|, w, i)])
  }

  /** On whole frames each channel lands in its own half. */
  lemma DeintIsPlanar(d: Bytes, w: Width, j: nat)
    requires WholePairs(|d|, w) && j < |d|
    ensures FromPlanar(|d|, w, j) < |d| && Deint(d, w)[j] == d[FromPlanar(|d|, w, j)]
  {
    PlanarPositionsInvert(|d|, w, j);
    DeintUptoEnd(d, w, j);
  }

  lemma DeintUptoEnd(d: Bytes, w: Width, j: nat)
    requires WholePairs(|d|, w) && j < |d|
    ensures DeintUpto(d, w, FrameCount(|d|, w), 0, 0, j) == ReadOrZero(d, FromPlanar(|d|, w, j))
  {
  }

  lemma InterleaveDeint(d: Bytes, w: Width)
    requires WholePairs(|d|, w)
    ensures Interleave(Deint(d, w), w) == d
  {
    forall i | 0 <= i < |d|
      ensures Interleave(Deint(d, w), w)[i] == d[i]
    {
      PlanarPositionsInvert(|d|, w, i);
      DeintIsPlanar(d, w, ToPlanar(|d|, w, i));
    }
  }

  lemma DeintInterleave(x: Bytes, w: Width)
    requires WholePairs(|x|, w)
    ensures Deint(Interleave(x, w), w) == x
  {
    forall j | 0 <= j < |x|
      ensures Deint(Interleave(x, w), w)[j] == x[j]
    {
      DeintIsPlanar(Interleave(x, w), w, j);
      PlanarPositionsInvert(|x|, w, j);
    }
  }

  lemma SignFlipTwice(d: Bytes, w: Width)
    ensures SignFlip(SignFlip(d, w), w) == d
  {
  }

  /** The running sum that undoes an 8-bit delta. */
  function ByteSum(x: Bytes, i: nat): byte
    requires i < |x|
  {
    if i == 0 then x[0] else (ByteSum(x, i - 1) as int + x[i] as int) % 256
  }

  /** The running sum that undoes a 16-bit delta. */
  function WordSum(x: Bytes, q: nat): (v: nat)
    requires 2 * q + 1 < |x|
    ensures v < 65536
  {
    if q == 0 then Word(x, 0) else (WordSum(x, q - 1) + Word(x, q)) % 65536
  }

  function SumByte(x: Bytes, w: Width, i: nat): byte
    requires WholeSamples(|x|, w) && i < |x|
  {
    if w == 1 then ByteSum(x, i)
    else if i % 2 == 0 then WordSum(x, i / 2) % 256 else WordSum(x, i / 2) / 256
  }

  function Undelta(x: Bytes, w: Width): (r: Bytes)
    requires WholeSamples(|x|, w)
    ensures |r| == |x|
  {
    seq(|x|, i requires 0 <= i < |x| => SumByte(x, w, i))
  }

  lemma {:induction false} ByteSumOfDelta(s: Bytes, i: nat)
    requires i < |s|
    ensures ByteSum(DeltaChannel(s, 1), i) == s[i]
  {
    ByteDelta(s, i);
    hide DeltaChannel;
    if i > 0 {
      ByteSumOfDelta(s, i - 1);
      ByteDifferenceCancels(s[i - 1] as int, s[i] as int);
    }
  }

  lemma ByteDelta(s: Bytes, i: nat)
    requires i < |s|
    ensures DeltaChannel(s, 1)[i] as int == if i == 0 then s[0] as int else (s[i] as int - s[i - 1] as int) % 256
  {
    assert DeltaChannel(s, 1)[i] == DeltaByte(s, 1, i);
  }

  lemma ByteDifferenceCancels(p: nat, v: nat)
    requires p < 256 && v < 256
    ensures (p + (v - p) % 256) % 256 == v
  {
  }

  lemma WordOfDelta(s: Bytes, q: nat)
    requires 2 * q + 1 < |s|
    ensures Word(DeltaChannel(s, 2), q) == WordDelta(s, q)
  {
    assert DeltaByte(s, 2, 2 * q) == WordDelta(s, q) % 256;
    assert DeltaByte(s, 2, 2 * q + 1) == WordDelta(s, q) / 256;
  }

  lemma DifferenceCancels(p: nat, v: nat)
    requires p < 65536 && v < 65536
    ensures (p + (v - p) % 65536) % 65536 == v
  {
  }

  lemma {:induction false} WordSumOfDelta(s: Bytes, x: Bytes, q: nat)
    requires |x| == |s| && 2 * q + 1 < |s|
    requires forall k: nat :: 2 * k + 1 < |s| ==> Word(x, k) == WordDelta(s, k)
    ensures WordSum(x, q) == Word(s, q)
  {
    assert Word(x, q) == WordDelta(s, q);
    if q > 0 {
      WordSumOfDelta(s, x, q - 1);
      DifferenceCancels(Word(s, q - 1), Word(s, q));
    }
  }

  lemma SumByteOfDelta(s: Bytes, w: Width, i: nat)
    requires WholeSamples(|s|, w) && i < |s|
    ensures SumByte(DeltaChannel(s, w), w, i) == s[i]
  {
    if w == 1 {
      ByteSumOfDelta(s, i);
    } else {
      var x := DeltaChannel(s, 2);
      forall k: nat | 2 * k + 1 < |s|
        ensures Word(x, k) == WordDelta(s, k)
      {
        WordOfDelta(s, k);
      }
      WordSumOfDelta(s, x, i / 2);
      WordBytes(s, i);
    }
  }

  lemma UndeltaDelta(s: Bytes, w: Width)
    requires WholeSamples(|s|, w)
    ensures Undelta(DeltaChannel(s, w), w) == s
  {
    var x := DeltaChannel(s, w);
    forall i | 0 <= i < |s|
      ensures SumByte(x, w, i) == s[i]
    {
      SumByteOfDelta(s, w, i);
    }
  }

  lemma WordBytes(s: Bytes, i: nat)
    requires i < |s| && |s| % 2 == 0
    ensures s[i] == if i % 2 == 0 then Word(s, i / 2) % 256 else Word(s, i / 2) / 256
  {
  }

  lemma WordOfUndelta(x: Bytes, q: nat)
    requires 2 * q + 1 < |x| && |x| % 2 == 0
    ensures Word(Undelta(x, 2), q) == WordSum(x, q)
  {
    hide SumByte, WordSum;
    SumBytesOfWord(x, q);
    var u := Undelta(x, 2);
    assert u[2 * q] == SumByte(x, 2, 2 * q) && u[2 * q + 1] == SumByte(x, 2, 2 * q + 1);
  }

  lemma SumBytesOfWord(x: Bytes, q: nat)
    requires 2 * q + 1 < |x| && |x| % 2 == 0
    ensures SumByte(x, 2, 2 * q) == WordSum(x, q) % 256
    ensures SumByte(x, 2, 2 * q + 1) == WordSum(x, q) / 256
  {
    assert (2 * q) / 2 == q && (2 * q + 1) / 2 == q;
  }

  lemma WordDeltaOfUndelta(x: Bytes, q: nat)
    requires 2 * q + 1 < |x| && |x| % 2 == 0
    ensures WordDelta(Undelta(x, 2), q) == Word(x, q)
  {
    WordOfUndelta(x, q);
    if q > 0 {
      WordOfUndelta(x, q - 1);
      SumCancels(WordSum(x, q - 1), Word(x, q));
    }
  }

  lemma SumCancels(p: nat, v: nat)
    requires p < 65536 && v < 65536
    ensures ((p + v) % 65536 - p) % 65536 == v
  {
  }

  lemma DeltaByteOfUndelta(x: Bytes, w: Width, i: nat)
    requires WholeSamples(|x|, w) && i < |x|
    ensures DeltaByte(Undelta(x, w), w, i) == x[i]
  {
    if w == 2 {
      WordDeltaOfUndelta(x, i / 2);
      WordBytes(x, i);
    }
  }

  lemma DeltaUndelta(x: Bytes, w: Width)
    requires WholeSamples(|x|, w)
    ensures DeltaChannel(Undelta(x, w), w) == x
  {
    var u := Undelta(x, w);
    forall i | 0 <= i < |x|
      ensures DeltaByte(u, w, i) == x[i]
    {
      DeltaByteOfUndelta(x, w, i);
    }
  }

  function UndeltaStage(x: Bytes, w: Width, planar: bool): (r: Bytes)
    requires if planar then WholePairs(|x|, w) else WholeSamples(|x|, w)
    ensures |r| == |x|
  {
    if planar then Undelta(x[..|x| / 2], w) + Undelta(x[|x| / 2..], w) else Undelta(x, w)
  }

  lemma UndeltaDeltaStage(d: Bytes, w: Width, planar: bool)
    requires if planar then WholePairs(|d|, w) else WholeSamples(|d|, w)
    ensures UndeltaStage(DeltaStage(d, w, planar), w, planar) == d
    ensures DeltaStage(UndeltaStage(d, w, planar), w, planar) == d
  {
    if planar {
      var h := |d| / 2;
      UndeltaDeltaHalves(d[..h], d[h..], w);
      assert d == d[..h] + d[h..];
    } else {
      UndeltaDelta(d, w);
      DeltaUndelta(d, w);
    }
  }

  lemma UndeltaDeltaHalves(a: Bytes, b: Bytes, w: Width)
    requires |a| == |b| && WholeSamples(|a|, w)
    ensures UndeltaStage(DeltaStage(a + b, w, true), w, true) == a + b
    ensures DeltaStage(UndeltaStage(a + b, w, true), w, true) == a + b
  {
    hide Undelta, DeltaChannel;
    UndeltaDelta(a, w);
    UndeltaDelta(b, w);
    DeltaUndelta(a, w);
    DeltaUndelta(b, w);
    HalvesOf(a, b);
    HalvesOf(DeltaChannel(a, w), DeltaChannel(b, w));
    HalvesOf(Undelta(a, w), Undelta(b, w));
  }

  lemma HalvesOf(a: Bytes, b: Bytes)
    requires |a| == |b|
    ensures (a + b)[..|a + b| / 2] == a && (a + b)[|a + b| / 2..] == b
  {
  }

  // ---- The inverse of the whole transform ----

  /** Undo the stages in the opposite order. */
  function UnapplyStages(sign: bool, delta: bool, planar: bool, x: Bytes, w: Width): (r: Bytes)
    requires if planar then WholePairs(|x|, w) else WholeSamples(|x|, w)
    ensures |r| == |x|
  {
    var x1 := if delta then UndeltaStage(x, w, planar) else x;
    var x2 := if sign then SignFlip(x1, w) else x1;
    if planar then Interleave(x2, w) else x2
  }

  lemma StagesInvert(sign: bool, delta: bool, planar: bool, d: Bytes, w: Width)
    requires if planar then WholePairs(|d|, w) else WholeSamples(|d|, w)
    ensures UnapplyStages(sign, delta, planar, ApplyStages(sign, delta, planar, d, w), w) == d
    ensures ApplyStages(sign, delta, planar, UnapplyStages(sign, delta, planar, d, w), w) == d
  {
    hide Deint, Interleave, SignFlip, DeltaStage, UndeltaStage;
    var d1 := if planar then Deint(d, w) else d;
    UndeltaDeltaStage(if sign then SignFlip(d1, w) else d1, w, planar);
    UndeltaDeltaStage(d, w, planar);
    var x1 := if delta then UndeltaStage(d, w, planar) else d;
    SignFlipTwice(d1, w);
    SignFlipTwice(x1, w);
    if planar {
      InterleaveDeint(d, w);
      DeintInterleave(if sign then SignFlip(x1, w) else x1, w);
    }
  }

  lemma PairsAreSamples(len: nat, w: Width)
    ensures WholePairs(len, w) ==> WholeSamples(len, w)
  {
  }

  function UnapplyEnc(enc: nat, x: Bytes, bitDepth: int, channels: int): (r: Bytes)
    requires WholeFrames(|x|, bitDepth, channels)
    ensures |r| == |x|
  {
    PairsAreSamples(|x|, WidthOf(bitDepth));
    UnapplyStages(HasSign(enc), HasDelta(enc), HasDeint(enc) && Stereo(channels), x, WidthOf(bitDepth))
  }

  /** Every mask is a bijection on whole-frame buffers of one length. */
  lemma EncIsBijective(enc: nat, d: Bytes, bitDepth: int, channels: int)
    requires WholeFrames(|d|, bitDepth, channels)
    ensures UnapplyEnc(enc, ApplyEncSpec(enc, d, bitDepth, channels), bitDepth, channels) == d
    ensures ApplyEncSpec(enc, UnapplyEnc(enc, d, bitDepth, channels), bitDepth, channels) == d
  {
    hide ApplyStages, UnapplyStages;
    PairsAreSamples(|d|, WidthOf(bitDepth));
    StagesInvert(HasSign(enc), HasDelta(enc), HasDeint(enc) && Stereo(channels), d, WidthOf(bitDepth));
  }

  // ---- The desktop client's copy ----

  /** `apply_enc`: skips de-interleaving on a partial frame, and halves odd lengths downwards. */
  function ApplyEncRust(enc: nat, d: Bytes, bitDepth: int, channels: int): (r: Bytes)
    ensures |r| == |d|
  {
    var w := WidthOf(bitDepth);
    var planar := HasDeint(enc) && Stereo(channels);
    var d1 := if planar && WholePairs(|d|, w) then PlanarRust(d, w) else d;
    var d2 := if HasSign(enc) then SignFlip(d1, w) else d1;
    if HasDelta(enc) then DeltaStageRust(d2, w, planar) else d2
  }

  function DeltaStageRust(d: Bytes, w: Width, planar: bool): (r: Bytes)
    ensures |r| == |d|
  {
    var h := |d| / 2;
    if planar then DeltaChannel(d[..h], w) + DeltaChannel(d[h..2 * h], w) + Zeros(|d| % 2)
    else DeltaChannel(d, w)
  }

  function PlanarRust(d: Bytes, w: Width): Bytes
    requires WholePairs(|d|, w)
  {
    seq(|d|, j requires 0 <= j < |d| => PlanarPositionsInvert(|d|, w, j); d[FromPlanar(|d|, w, j)])
  }

  method ApplyEncDesktop(enc: nat, d: Bytes, bitDepth: int, channels: int) returns (r: Bytes)
    ensures r == ApplyEncRust(enc, d, bitDepth, channels)
  {
    hide Deint, SignFlip, DeltaStageRust, PlanarRust;
    var w := WidthOf(bitDepth);
    var planar := HasDeint(enc) && Stereo(channels);
    r := d;
    if planar && WholePairs(|r|, w) {
      PlanarRustIsDeint(r, w);
      r := Deinterleave(r, w);
    }
    if HasSign(enc) {
      r := FlipSigns(r, w);
    }
    if HasDelta(enc) {
      r := DeltaDesktop(r, w, planar);
    }
  }

  method DeltaDesktop(cur: Bytes, w: Width, planar: bool) returns (r: Bytes)
    ensures r == DeltaStageRust(cur, w, planar)
  {
    hide DeltaChannel;
    var out := new byte[|cur|](_ => 0);
    if planar {
      HalvesDesktop(cur, w, out);
    } else {
      DeltaInto(cur, w, 0, |cur|, out);
      assert out[..] == out[0..|cur|] && cur[0..|cur|] == cur;
    }
    r := out[..];
  }

  method HalvesDesktop(cur: Bytes, w: Width, out: array<byte>)
    requires out.Length == |cur| && forall k :: 0 <= k < |cur| ==> out[k] == 0
    modifies out
    ensures out[..] == DeltaStageRust(cur, w, true)
  {
    hide DeltaChannel;
    var h := |cur| / 2;
    DeltaInto(cur, w, 0, h, out);
    assert cur[0..h] == cur[..h] && out[..h] == out[0..h];
    ghost var left := out[..h];
    DeltaInto(cur, w, h, h, out);
    assert h + h == 2 * h && out[..h] == left;
    assert out[2 * h..] == Zeros(|cur| % 2);
    assert out[..] == out[..h] + out[h..2 * h] + out[2 * h..];
  }

  /** The lockstep the two programs promise each other holds unless a partial frame is to be split. */
  lemma RustAgreesOnWholeFrames(enc: nat, d: Bytes, bitDepth: int, channels: int)
    requires HasDeint(enc) && Stereo(channels) ==> WholePairs(|d|, WidthOf(bitDepth))
    ensures ApplyEncRust(enc, d, bitDepth, channels) == ApplyEncSpec(enc, d, bitDepth, channels)
  {
    var w := WidthOf(bitDepth);
    if HasDeint(enc) && Stereo(channels) {
      PlanarRustIsDeint(d, w);
      RustHalvesAlike(if HasSign(enc) then SignFlip(Deint(d, w), w) else Deint(d, w), w);
    }
  }

  lemma RustHalvesAlike(d: Bytes, w: Width)
    requires |d| % 2 == 0
    ensures DeltaStageRust(d, w, true) == DeltaStage(d, w, true)
  {
    var h := |d| / 2;
    assert d[h..2 * h] == d[h..] && Zeros(0) == [];
  }

  lemma PlanarRustIsDeint(d: Bytes, w: Width)
    requires WholePairs(|d|, w)
    ensures PlanarRust(d, w) == Deint(d, w)
  {
    forall j | 0 <= j < |d|
      ensures PlanarRust(d, w)[j] == Deint(d, w)[j]
    {
      DeintIsPlanar(d, w, j);
    }
  }

  // ---- On which lengths the two agree ----

  /** A stereo buffer is split into whole frames, or is a single byte of 16-bit samples, which neither program moves. */
  predicate InLockstep(len: nat, bitDepth: int, channels: int) {
    !Stereo(channels) || WholePairs(len, WidthOf(bitDepth)) || (WidthOf(bitDepth) == 2 && len == 1)
  }

  /** A single 1 where the web transform puts something else, and the desktop one leaves it. */
  function Probe(len: nat, at: nat): (d: Bytes)
    ensures |d| == len
  {
    seq(len, i => if i == at then 1 else 0)
  }

  /** A byte of a partial frame that the web transform overwrites with another. */
  function MovedFrom(len: nat, w: Width): nat { if w == 1 || len == 2 then 1 else 2 }

  /** The two programs agree on every mask and every buffer of a length exactly on these lengths. */
  lemma RustAgreesIff(len: nat, bitDepth: int, channels: int)
    ensures InLockstep(len, bitDepth, channels) <==>
      forall enc: nat, d: Bytes :: |d| == len ==>
        ApplyEncRust(enc, d, bitDepth, channels) == ApplyEncSpec(enc, d, bitDepth, channels)
  {
    hide ApplyEncRust, ApplyEncSpec;
    if InLockstep(len, bitDepth, channels) {
      forall enc: nat, d: Bytes | |d| == len
        ensures ApplyEncRust(enc, d, bitDepth, channels) == ApplyEncSpec(enc, d, bitDepth, channels)
      {
        if Stereo(channels) && !WholePairs(len, WidthOf(bitDepth)) {
          OneByteAlike(enc, d, bitDepth, channels);
        } else {
          RustAgreesOnWholeFrames(enc, d, bitDepth, channels);
        }
      }
    } else if len == 1 {
      RustDropsOneByte();
      assert ApplyEncRust(6, [1], bitDepth, channels) != ApplyEncSpec(6, [1], bitDepth, channels) by {
        DepthsAlike(6, [1], bitDepth, channels);
      }
    } else {
      var d := RustDiffers(len, bitDepth, channels);
      assert d[MovedFrom(len, WidthOf(bitDepth))] == 1;
      assert ApplyEncRust(4, d, bitDepth, channels) != ApplyEncSpec(4, d, bitDepth, channels);
    }
  }

  /** Only the width of a sample and whether there are two channels matter. */
  lemma DepthsAlike(enc: nat, d: Bytes, bitDepth: int, channels: int)
    requires WidthOf(bitDepth) == 1 && Stereo(channels)
    ensures ApplyEncRust(enc, d, bitDepth, channels) == ApplyEncRust(enc, d, 8, 2)
    ensures ApplyEncSpec(enc, d, bitDepth, channels) == ApplyEncSpec(enc, d, 8, 2)
  {
  }

  lemma OneByteAlike(enc: nat, d: Bytes, bitDepth: int, channels: int)
    requires |d| == 1 && WidthOf(bitDepth) == 2
    ensures ApplyEncRust(enc, d, bitDepth, channels) == ApplyEncSpec(enc, d, bitDepth, channels)
  {
    OneByteStays(d, 2);
  }

  lemma OneByteStays(d: Bytes, w: Width)
    requires |d| == 1
    ensures Deint(d, w) == d
  {
    hide DeintUpto, FrameCount;
    OneFrame(w);
    OneByteUpto(d, w);
    assert Deint(d, w) == [DeintUpto(d, w, FrameCount(|d|, w), 0, 0, 0)];
  }

  lemma OneFrame(w: Width)
    ensures FrameCount(1, w) == 1
  {
  }

  lemma FirstRead(d: Bytes)
    requires d != []
    ensures ReadOrZero(d, 0) == d[0]
  {
  }

  lemma OneByteUpto(d: Bytes, w: Width)
    requires |d| == 1
    ensures DeintUpto(d, w, 1, 0, 0, 0) == d[0]
  {
    hide ReadOrZero;
    assert Over(w, 0) == 0 && Rem(w, 0) == 0 && Times(w, 0) == 0;
    hide Over, Rem, Times;
    FirstRead(d);
  }

  /** One 8-bit byte, split and delta-coded: the web transform keeps it, the desktop one drops it. */
  lemma RustDropsOneByte()
    ensures ApplyEncSpec(6, [1], 8, 2) == [1] && ApplyEncRust(6, [1], 8, 2) == [0]
  {
    OneByteStays([1], 1);
    assert [1][..1] == [1] && DeltaChannel([1], 1) == [1];
  }

  /** Every other partial frame of stereo is moved by the web transform and left by the desktop one. */
  lemma RustDiffers(len: nat, bitDepth: int, channels: int) returns (d: Bytes)
    requires len > 1 && Stereo(channels) && !WholePairs(len, WidthOf(bitDepth))
    ensures d == Probe(len, MovedFrom(len, WidthOf(bitDepth)))
    ensures ApplyEncRust(4, d, bitDepth, channels) == d && ApplyEncSpec(4, d, bitDepth, channels) == Deint(d, WidthOf(bitDepth))
    ensures Deint(d, WidthOf(bitDepth))[MovedFrom(len, WidthOf(bitDepth))] == 0
  {
    var w := WidthOf(bitDepth);
    var at := MovedFrom(len, w);
    d := Probe(len, at);
    if w == 1 {
      OddByteMoves(len);
    } else {
      PartialWordMoves(len, at);
    }
    assert Deint(d, w)[at] == 0;
  }

  lemma OddByteMoves(len: nat)
    requires len > 1 && len % 2 == 1
    ensures DeintUpto(Probe(len, 1), 1, FrameCount(len, 1), 0, 0, 1) == 0
  {
    assert FrameCount(len, 1) > 1;
  }

  lemma PartialWordMoves(len: nat, at: nat)
    requires len > 1 && len % 4 != 0 && at == MovedFrom(len, 2)
    ensures DeintUpto(Probe(len, at), 2, FrameCount(len, 2), 0, 0, at) == 0
  {
    if len == 2 {
      assert FrameCount(2, 2) == 1;
    } else if len > 4 {
      assert FrameCount(len, 2) > 1;
    } else {
      assert len == 3 && FrameCount(3, 2) == 1;
    }
  }
}
