/**
 * The transform from decoded PCM to the on-disk sample bytes: DEINT, then SIGN, then DELTA, each
 * switched by a bit of the mask. `ApplyEnc` is the baker's buffer-writing form, total on lengths
 * that are not whole frames; `ApplyEncRust` is what the desktop client computes.
 */
module SampleTransform {
  import opened Basics

  predicate HasSign(enc: nat) { enc % 2 == 1 }
  predicate HasDelta(enc: nat) { enc / 2 % 2 == 1 }
  predicate HasDeint(enc: nat) { enc / 4 % 2 == 1 }

  /** Bytes of one sample of one channel. */
  type Width = w: int | w == 1 || w == 2 witness 1

  function WidthOf(bitDepth: int): Width { if bitDepth == 16 then 2 else 1 }

  predicate Stereo(channels: int) { channels == 2 }

  /** A whole number of samples of one channel, and of a pair of channels. */
  predicate WholeSamples(len: nat, w: Width) { w == 1 || len % 2 == 0 }
  predicate WholePairs(len: nat, w: Width) { len % 2 == 0 && WholeSamples(len / 2, w) }

  /** The length is a multiple of bytes per sample times channels. */
  predicate WholeFrames(len: nat, bitDepth: int, channels: int) {
    var w := WidthOf(bitDepth);
    if Stereo(channels) then WholePairs(len, w) else WholeSamples(len, w)
  }

  // Multiplying, dividing and reducing by a width, kept linear for the verifier.
  function Times(w: Width, x: int): int { if w == 1 then x else 2 * x }
  function Over(w: Width, x: nat): nat { if w == 1 then x else x / 2 }
  function Rem(w: Width, x: nat): nat { if w == 1 then 0 else x % 2 }

  /** A typed array read: past the end is `undefined`, stored as 0. */
  function ReadOrZero(d: Bytes, i: nat): byte { if i < |d| then d[i] else 0 }

  // ---- De-interleaving ----

  /** Byte `j` after every write of frames before `f`, of channels before `c` and bytes before `b` of `f`. */
  function DeintUpto(d: Bytes, w: Width, f: nat, c: nat, b: nat, j: nat): byte {
    var f0, b0 := Over(w, j), Rem(w, j);
    var left := f0 < f || (f0 == f && (0 < c || b0 < b));
    var half := |d| / 2;
    if |d| % 2 == 0 && half <= j then
      var f1, b1 := Over(w, j - half), Rem(w, j - half);
      var right := f1 < f || (f1 == f && (1 < c || (c == 1 && b1 < b)));
      // channel 1 of a frame is written after channel 0 of the same frame
      if right && !(left && f1 < f0) then ReadOrZero(d, Times(w, 2 * f1 + 1) + b1)
      else if left then ReadOrZero(d, Times(w, 2 * f0) + b0)
      else 0
    else if left then ReadOrZero(d, Times(w, 2 * f0) + b0)
    else 0
  }

  /** The number of frames the loop visits: the least `f` with `f * 2w >= len`. */
  function FrameCount(len: nat, w: Width): nat { Over(w, (len + 1) / 2 + w - 1) }

  function Deint(d: Bytes, w: Width): (r: Bytes)
    ensures |r| == |d|
  {
    seq(|d|, j requires 0 <= j < |d| => DeintUpto(d, w, FrameCount(|d|, w), 0, 0, j))
  }

  /** Where byte `b` of channel `c` of frame `f` goes; on an odd length channel 1 has no whole index. */
  function DeintTarget(len: nat, w: Width, f: nat, c: nat, b: nat): int {
    if c == 0 then Times(w, f) + b else if len % 2 == 0 then len / 2 + Times(w, f) + b else -1
  }

  lemma DeintWrite(d: Bytes, w: Width, f: nat, c: nat, b: nat, j: nat)
    requires c < 2 && b < w && j < |d|
    ensures DeintUpto(d, w, f, c, b + 1, j) ==
      if j == DeintTarget(|d|, w, f, c, b) then ReadOrZero(d, Times(w, 2 * f + c) + b)
      else DeintUpto(d, w, f, c, b, j)
  {
  }

  method StoreByte(d: Bytes, w: Width, f: nat, c: nat, b: nat, out: array<byte>)
    requires c < 2 && b < w && out.Length == |d|
    requires forall j :: 0 <= j < |d| ==> out[j] == DeintUpto(d, w, f, c, b, j)
    modifies out
    ensures forall j :: 0 <= j < |d| ==> out[j] == DeintUpto(d, w, f, c, b + 1, j)
  {
    forall j | 0 <= j < |d| {
      DeintWrite(d, w, f, c, b, j);
    }
    var at := DeintTarget(|d|, w, f, c, b);
    if 0 <= at < |d| {
      out[at] := ReadOrZero(d, Times(w, 2 * f + c) + b);
    }
  }

  lemma DeintCarry(d: Bytes, w: Width, f: nat, c: nat, j: nat)
    requires j < |d|
    ensures c < 2 ==> DeintUpto(d, w, f, c, w, j) == DeintUpto(d, w, f, c + 1, 0, j)
    ensures c == 2 ==> DeintUpto(d, w, f, c, 0, j) == DeintUpto(d, w, f + 1, 0, 0, j)
  {
  }

  method StoreFrame(d: Bytes, w: Width, f: nat, out: array<byte>)
    requires out.Length == |d|
    requires forall j :: 0 <= j < |d| ==> out[j] == DeintUpto(d, w, f, 0, 0, j)
    modifies out
    ensures forall j :: 0 <= j < |d| ==> out[j] == DeintUpto(d, w, f + 1, 0, 0, j)
  {
    for c := 0 to 2
      invariant forall j :: 0 <= j < |d| ==> out[j] == DeintUpto(d, w, f, c, 0, j)
    {
      for b := 0 to w
        invariant forall j :: 0 <= j < |d| ==> out[j] == DeintUpto(d, w, f, c, b, j)
      {
        StoreByte(d, w, f, c, b, out);
      }
      forall j | 0 <= j < |d| {
        DeintCarry(d, w, f, c, j);
      }
    }
    forall j | 0 <= j < |d| {
      DeintCarry(d, w, f, 2, j);
    }
  }

  method Deinterleave(cur: Bytes, w: Width) returns (r: Bytes)
    ensures r == Deint(cur, w)
  {
    var out := new byte[|cur|](_ => 0);
    var f := 0;
    while Times(w, 2 * f) < |cur|
      invariant 0 <= f <= FrameCount(|cur|, w)
      invariant forall j :: 0 <= j < |cur| ==> out[j] == DeintUpto(cur, w, f, 0, 0, j)
      decreases FrameCount(|cur|, w) - f
    {
      StoreFrame(cur, w, f, out);
      f := f + 1;
    }
    r := out[..];
  }

  // ---- Sign ----

  function Flip(b: byte): byte { (b + 128) % 256 }

  /** Flipping the top bit is adding 128 mod 256. */
  lemma FlipIsXor(b: bv8)
    ensures (b ^ 0x80) as int == Flip(b as int)
  {
    assert b < 0x80 ==> b ^ 0x80 == b + 0x80;
    assert b >= 0x80 ==> b ^ 0x80 == b - 0x80;
  }

  function SignFlip(d: Bytes, w: Width): (r: Bytes)
    ensures |r| == |d|
  {
    seq(|d|, i requires 0 <= i < |d| => if w == 1 || i % 2 == 1 then Flip(d[i]) else d[i])
  }

  method FlipSigns(d: Bytes, w: Width) returns (r: Bytes)
    ensures r == SignFlip(d, w)
  {
    var cur := new byte[|d|](i requires 0 <= i < |d| => d[i]);
    var i := w - 1;
    while i < |d|
      invariant w - 1 <= i && (w == 2 ==> i % 2 == 1)
      invariant forall k :: 0 <= k < |d| ==> cur[k] == if k < i then SignFlip(d, w)[k] else d[k]
    {
      cur[i] := Flip(cur[i]);
      i := i + w;
    }
    r := cur[..];
  }

  // ---- Delta ----

  function Word(s: Bytes, q: nat): nat
    requires 2 * q + 1 < |s|
  {
    s[2 * q] as int + 256 * s[2 * q + 1] as int
  }

  function WordDelta(s: Bytes, q: nat): (dd: nat)
    requires 2 * q + 1 < |s|
    ensures dd < 65536
  {
    (Word(s, q) - if q == 0 then 0 else Word(s, q - 1)) % 65536
  }

  function DeltaByte(s: Bytes, w: Width, i: nat): byte
    requires i < |s|
  {
    if w == 1 then (s[i] - if i == 0 then 0 else s[i - 1]) % 256
    else if 2 * (i / 2) + 1 >= |s| then 0
    else if i % 2 == 0 then WordDelta(s, i / 2) % 256
    else WordDelta(s, i / 2) / 256
  }

  /** One channel, each sample replaced by its difference from the one before. */
  function DeltaChannel(s: Bytes, w: Width): (r: Bytes)
    ensures |r| == |s|
  {
    seq(|s|, i requires 0 <= i < |s| => DeltaByte(s, w, i))
  }

  twostate predicate OnlyWithin(out: array<byte>, lo: nat, hi: nat)
    reads out
  {
    forall k :: 0 <= k < out.Length && !(lo <= k < hi) ==> out[k] == old(out[k])
  }

  method DeltaBytesInto(cur: Bytes, base: nat, len: nat, out: array<byte>)
    requires base + len <= |cur| == out.Length
    modifies out
    ensures OnlyWithin(out, base, base + len)
    ensures forall j :: base <= j < base + len ==> out[j] == DeltaByte(cur[base..base + len], 1, j - base)
  {
    ghost var s := cur[base..base + len];
    var p: int := 0;
    for i := 0 to len
      invariant p == if i == 0 then 0 else s[i - 1] as int
      invariant OnlyWithin(out, base, base + len)
      invariant forall j :: base <= j < base + i ==> out[j] == DeltaByte(s, 1, j - base)
    {
      assert s[i] == cur[base + i];
      out[base + i] := (cur[base + i] as int - p) % 256;
      p := cur[base + i];
    }
  }

  lemma WordStep(s: Bytes, q: nat, p: int, v: nat)
    requires 2 * q + 1 < |s| && p == (if q == 0 then 0 else Word(s, q - 1)) && v == Word(s, q)
    ensures DeltaByte(s, 2, 2 * q) == (v - p) % 65536 % 256
    ensures DeltaByte(s, 2, 2 * q + 1) == (v - p) % 65536 / 256
  {
    assert (2 * q) / 2 == q && (2 * q + 1) / 2 == q;
  }

  lemma OddTail(s: Bytes)
    requires |s| % 2 == 1
    ensures DeltaByte(s, 2, |s| - 1) == 0
  {
  }

  method DeltaWordsInto(cur: Bytes, base: nat, len: nat, out: array<byte>)
    requires base + len <= |cur| == out.Length
    requires forall k :: base <= k < base + len ==> out[k] == 0
    modifies out
    ensures OnlyWithin(out, base, base + len)
    ensures forall j :: base <= j < base + len ==> out[j] == DeltaByte(cur[base..base + len], 2, j - base)
  {
    hide DeltaByte, WordDelta;
    ghost var s := cur[base..base + len];
    var p: int, i := 0, 0;
    while i + 1 < len
      invariant 0 <= i <= len && i % 2 == 0
      invariant p == if i == 0 then 0 else Word(s, i / 2 - 1)
      invariant OnlyWithin(out, base, base + len)
      invariant forall j :: base <= j < base + i ==> out[j] == DeltaByte(s, 2, j - base)
      invariant forall j :: base + i <= j < base + len ==> out[j] == 0
    {
      var v := cur[base + i] as int + 256 * cur[base + i + 1] as int;
      WordStep(s, i / 2, p, v);
      var dd := (v - p) % 65536;
      out[base + i], out[base + i + 1] := dd % 256, dd / 256;
      p := v;
      i := i + 2;
    }
    if i < len {
      OddTail(s);
    }
  }

  method DeltaInto(cur: Bytes, w: Width, base: nat, len: nat, out: array<byte>)
    requires base + len <= |cur| == out.Length
    requires forall k :: base <= k < base + len ==> out[k] == 0
    modifies out
    ensures OnlyWithin(out, base, base + len)
    ensures out[base..base + len] == DeltaChannel(cur[base..base + len], w)
  {
    if w == 1 {
      DeltaBytesInto(cur, base, len, out);
    } else {
      DeltaWordsInto(cur, base, len, out);
    }
  }

  // ---- The whole transform ----

  /** Channels delta-coded separately: two once the buffer is planar. */
  function DeltaStage(d: Bytes, w: Width, planar: bool): (r: Bytes)
    ensures |r| == |d|
  {
    if !planar then DeltaChannel(d, w)
    else
      // an odd length halves to a fraction: channel 0 gets the larger half, channel 1 nothing
      var h := (|d| + 1) / 2;
      DeltaChannel(d[..h], w) + if |d| % 2 == 0 then DeltaChannel(d[h..], w) else Zeros(|d| - h)
  }

  /** The stages in their order; `planar` says whether the channels are split. */
  function ApplyStages(sign: bool, delta: bool, planar: bool, d: Bytes, w: Width): (r: Bytes)
    ensures |r| == |d|
  {
    var d1 := if planar then Deint(d, w) else d;
    var d2 := if sign then SignFlip(d1, w) else d1;
    if delta then DeltaStage(d2, w, planar) else d2
  }

  /** `applyEnc` of the baker, on every buffer. */
  function ApplyEncSpec(enc: nat, d: Bytes, bitDepth: int, channels: int): (r: Bytes)
    ensures |r| == |d|
  {
    ApplyStages(HasSign(enc), HasDelta(enc), HasDeint(enc) && Stereo(channels), d, WidthOf(bitDepth))
  }

  method ApplyEnc(enc: nat, d: Bytes, bitDepth: int, channels: int) returns (r: Bytes)
    ensures r == ApplyEncSpec(enc, d, bitDepth, channels)
  {
    hide Deint, SignFlip, DeltaStage;
    var w := WidthOf(bitDepth);
    var planar := HasDeint(enc) && Stereo(channels);
    r := d;
    if planar {
      r := Deinterleave(r, w);
    }
    if HasSign(enc) {
      r := FlipSigns(r, w);
    }
    if HasDelta(enc) {
      r := Delta(r, w, planar);
    }
  }

  method Delta(cur: Bytes, w: Width, planar: bool) returns (r: Bytes)
    ensures r == DeltaStage(cur, w, planar)
  {
    hide DeltaChannel;
    var out := new byte[|cur|](_ => 0);
    if !planar {
      DeltaInto(cur, w, 0, |cur|, out);
      assert out[..] == out[0..|cur|] && cur[0..|cur|] == cur;
    } else {
      DeltaPlanes(cur, w, out);
    }
    r := out[..];
  }

  method DeltaPlanes(cur: Bytes, w: Width, out: array<byte>)
    requires out.Length == |cur| && forall k :: 0 <= k < |cur| ==> out[k] == 0
    modifies out
    ensures out[..] == DeltaStage(cur, w, true)
  {
    hide DeltaChannel;
    var h := (|cur| + 1) / 2;
    DeltaInto(cur, w, 0, h, out);
    assert cur[0..h] == cur[..h] && out[..h] == out[0..h];
    ghost var left := out[..h];
    if |cur| % 2 == 0 {
      DeltaInto(cur, w, h, h, out);
      assert cur[h..h + h] == cur[h..] && out[h..] == out[h..h + h];
    } else {
      assert out[h..] == Zeros(|cur| - h);
    }
    assert out[..h] == left;
    assert out[..] == out[..h] + out[h..];
  }
}
