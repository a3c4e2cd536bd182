/** Which kind of module a file is, by its magic. */
module Formats {
  import opened Basics
  import opened SampleTransform
  import ModTables

  datatype Format = Mod | It | Mptm | S3m | Xm | Mo3

  function U16le(b: Bytes, o: nat): nat {
    ReadOrZero(b, o) as int + 0x100 * ReadOrZero(b, o + 1) as int
  }

  function U32le(b: Bytes, o: nat): nat {
    U16le(b, o) + 0x10000 * U16le(b, o + 2)
  }

  /** `magic` stands at `o`. */
  predicate Has(b: Bytes, o: nat, magic: string) {
    o + |magic| <= |b| && forall k :: 0 <= k < |magic| ==> b[o + k] as char == magic[k]
  }

  function DetectFormat(b: Bytes): Option<Format> {
    if |b| >= 4 && Has(b, 0, "MO3") then Some(Mo3)
    else if |b| >= 4 && Has(b, 0, "tpm.") then Some(Mptm)
    else if |b| >= 0x2c && Has(b, 0, "IMPM") then
      if 0x0889 <= U16le(b, 0x28) <= 0x0fff then Some(Mptm) else Some(It)
    else if |b| >= 0x30 && Has(b, 0x2c, "SCRM") then Some(S3m)
    else if |b| >= 17 && Has(b, 0, "Exte") then Some(Xm)
    else if |b| >= ModTables.HEADER_BYTES && ModTables.ModChannels(ModTables.Tag(b)) > 0 then Some(Mod)
    else None
  }

  /** The two formats that share the Impulse Tracker layout. */
  predicate IsIt(b: Bytes) {
    DetectFormat(b) == Some(It) || DetectFormat(b) == Some(Mptm)
  }

  /** What the magic "IMPM" settles. */
  lemma ImpulseMagic(b: Bytes)
    requires |b| >= 0x2c && b[0] == 0x49 && b[1] == 0x4d && b[2] == 0x50 && b[3] == 0x4d
    ensures IsIt(b)
  {
    assert !Has(b, 0, "MO3") && !Has(b, 0, "tpm.") by {
      assert b[0] as char != "MO3"[0] && b[0] as char != "tpm."[0];
    }
    assert Has(b, 0, "IMPM");
    hide U16le;
  }

  // ---- Bytes written at a place ----

  /** `x` stands in `b` at `p`. */
  ghost predicate Holds(b: Bytes, p: nat, x: Bytes) {
    p + |x| <= |b| && forall i :: 0 <= i < |x| ==> b[p + i] == x[i]
  }

  lemma HoldsSplit(b: Bytes, p: nat, x: Bytes, y: Bytes)
    requires Holds(b, p, x + y)
    ensures Holds(b, p, x) && Holds(b, p + |x|, y)
  {
    assert forall i | 0 <= i < |x| :: x[i] == (x + y)[i];
    forall i | 0 <= i < |y|
      ensures b[p + |x| + i] == y[i]
    {
      assert (x + y)[|x| + i] == y[i];
    }
  }

  lemma HoldsByte(b: Bytes, p: nat, v: byte)
    requires Holds(b, p, [v])
    ensures p < |b| && b[p] == v
  {
    assert [v][0] == v;
  }

  lemma HoldsTwo(b: Bytes, p: nat, v: byte, w: byte)
    requires Holds(b, p, [v, w])
    ensures p + 1 < |b| && b[p] == v && b[p + 1] == w
  {
    assert [v, w][0] == v && [v, w][1] == w;
  }

  function Le16(v: nat): Bytes
    requires v < 65536
  {
    [v % 256, v / 256]
  }

  lemma Le16Length(v: nat)
    requires v < 65536
    ensures |Le16(v)| == 2
  {
  }

  lemma Le16Reads(b: Bytes, p: nat, v: nat)
    requires v < 65536 && Holds(b, p, Le16(v))
    ensures U16le(b, p) == v
  {
    HoldsTwo(b, p, v % 256, v / 256);
  }

  function Le32(v: nat): (b: Bytes)
    requires v < 0x1_0000_0000
    ensures |b| == 4
  {
    Le16(v % 65536) + Le16(v / 65536)
  }

  lemma Le32Reads(b: Bytes, p: nat, v: nat)
    requires v < 0x1_0000_0000 && Holds(b, p, Le32(v))
    ensures U32le(b, p) == v
  {
    hide U16le, Holds;
    Le16Length(v % 65536);
    Le16Length(v / 65536);
    hide Le16;
    HoldsSplit(b, p, Le16(v % 65536), Le16(v / 65536));
    Le16Reads(b, p, v % 65536);
    Le16Reads(b, p + 2, v / 65536);
  }
}
