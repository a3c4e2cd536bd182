/**
 * The gear-hash content-defined chunker. `CdcChunks` is the generator's loop; `Chunks` is
 * the same cutting rule read off the bytes alone, and the lemmas are about `Chunks`.
 */
module Cdc {
  import opened Basics

  datatype CdcConfig = CdcConfig(min: nat, avg: nat, max: nat)

  const WORD: nat := 0x1_0000_0000

  function Pow2(k: nat): (p: nat)
    ensures p > 0
  {
    if k == 0 then 1 else 2 * Pow2(k - 1)
  }

  /** The linear congruential state after `i` steps; entry `b` of the gear table is step `b + 1`. */
  function GearSeed(i: nat): nat {
    if i == 0 then 0x9e3779b9 else (GearSeed(i - 1) * 1664525 + 1013904223) % WORD
  }

  function Gear(b: byte): nat { GearSeed(b + 1) }

  /** floor(log2(avg)), and 0 for avg = 0, as `Math.log2(avg) | 0`. */
  function Bits(avg: nat): nat {
    if avg < 2 then 0 else 1 + Bits(avg / 2)
  }

  /** A shift count is taken mod 32, so the mask `(1 << k) - 1` tests divisibility by this. */
  function MaskModulus(shift: int): (m: nat)
    ensures m > 0
  {
    Pow2(shift % 32)
  }

  function StrictModulus(cfg: CdcConfig): nat { MaskModulus(Bits(cfg.avg) + 2) }

  function LooseModulus(cfg: CdcConfig): nat { MaskModulus(Bits(cfg.avg) - 2) }

  function Roll(fp: nat, b: byte): nat { (2 * fp + Gear(b)) % WORD }

  /** The cut test at distance `i` from the chunk start: strict before `avg`, loose after. */
  predicate CutsAt(cfg: CdcConfig, i: nat, fp: nat) {
    fp % (if i < cfg.avg then StrictModulus(cfg) else LooseModulus(cfg)) == 0
  }

  /** Where the scan that has reached `i` with hash `fp` ends the chunk that starts `s`. */
  function ScanFrom(s: Bytes, cfg: CdcConfig, end: nat, i: nat, fp: nat): (stop: nat)
    requires end <= |s|
    ensures i < end ==> i < stop <= end
    ensures i >= end ==> stop == end
    decreases end - i
  {
    if i >= end then end
    else
      var fp' := Roll(fp, s[i]);
      if CutsAt(cfg, i, fp') then i + 1 else ScanFrom(s, cfg, end, i + 1, fp')
  }

  /** Length of the first chunk of `s`. */
  function ChunkLen(s: Bytes, cfg: CdcConfig): (len: nat)
    requires s != [] && cfg.max > 0
    ensures 0 < len <= Min(cfg.max, |s|)
  {
    ScanFrom(s, cfg, Min(cfg.max, |s|), cfg.min, 0)
  }

  function Chunks(s: Bytes, cfg: CdcConfig): seq<Bytes>
    requires cfg.max > 0
  {
    if s == [] then []
    else var n := ChunkLen(s, cfg); [s[..n]] + Chunks(s[n..], cfg)
  }

  /** The scan of one chunk: from `off`, past the first `min` bytes, to the cut or the limit. */
  method FindStop(buf: Bytes, off: nat, cfg: CdcConfig) returns (stop: nat)
    requires off < |buf| && cfg.max > 0
    ensures stop == off + ChunkLen(buf[off..], cfg)
  {
    hide Roll, MaskModulus, Bits;
    var n := |buf|;
    var strict, loose := StrictModulus(cfg), LooseModulus(cfg);
    var end, normal := Min(off + cfg.max, n), Min(off + cfg.avg, n);
    var fp: nat, i := 0, off + cfg.min;
    ghost var rest := buf[off..];
    while i < end
      invariant off <= i
      invariant ScanFrom(rest, cfg, end - off, i - off, fp) == ChunkLen(rest, cfg)
    {
      assert rest[i - off] == buf[i];
      fp := Roll(fp, buf[i]);
      if fp % (if i < normal then strict else loose) == 0 {
        assert CutsAt(cfg, i - off, fp);
        return i + 1;
      }
      i := i + 1;
    }
    return end;
  }

  /** The generator. With `max` = 0 and a non-empty buffer the program never advances. */
  method CdcChunks(buf: Bytes, cfg: CdcConfig) returns (chunks: seq<Bytes>)
    requires cfg.max > 0
    ensures chunks == Chunks(buf, cfg)
  {
    var off := 0;
    chunks := [];
    assert buf[off..] == buf;
    while off < |buf|
      invariant 0 <= off <= |buf|
      invariant Chunks(buf, cfg) == chunks + Chunks(buf[off..], cfg)
    {
      var stop := FindStop(buf, off, cfg);
      assert buf[off..][..stop - off] == buf[off..stop] && buf[off..][stop - off..] == buf[stop..];
      chunks := chunks + [buf[off..stop]];
      off := stop;
    }
  }
}
