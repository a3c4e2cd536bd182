/** What the chunker promises: it loses nothing, it is local, and it finds its cuts again after an edit. */
module CdcLaws {
  import opened Basics
  import opened Cdc

  lemma {:induction false} ChunksConcat(s: Bytes, cfg: CdcConfig)
    requires cfg.max > 0
    ensures Concat(Chunks(s, cfg)) == s
  {
    hide ChunkLen;
    if s != [] {
      var n := ChunkLen(s, cfg);
      ChunksConcat(s[n..], cfg);
      assert Chunks(s, cfg)[0] == s[..n] && Chunks(s, cfg)[1..] == Chunks(s[n..], cfg);
      assert s[..n] + s[n..] == s;
    }
  }

  lemma {:induction false} ScanPastMin(s: Bytes, cfg: CdcConfig, end: nat, i: nat, fp: nat)
    requires end <= |s|
    ensures ScanFrom(s, cfg, end, i, fp) >= Min(i + 1, end)
  {
  }

  /** No chunk is empty or over `max`, and every chunk but the last is over `min` (or a full `max`). */
  lemma {:induction false} ChunkLengths(s: Bytes, cfg: CdcConfig, i: nat)
    requires cfg.max > 0 && i < |Chunks(s, cfg)|
    ensures 0 < |Chunks(s, cfg)[i]| <= cfg.max
    ensures i + 1 < |Chunks(s, cfg)| ==> |Chunks(s, cfg)[i]| >= Min(cfg.min + 1, cfg.max)
  {
    var n := ChunkLen(s, cfg);
    var rest := Chunks(s[n..], cfg);
    assert Chunks(s, cfg) == [s[..n]] + rest;
    if i > 0 {
      ChunkLengths(s[n..], cfg, i - 1);
    } else if rest != [] {
      ScanPastMin(s, cfg, Min(cfg.max, |s|), cfg.min, 0);
    }
  }

  // ---- Chunks depend only on the bytes from the cut on ----

  /** The number of bytes in the first `m` chunks. */
  function BytesBefore(s: Bytes, cfg: CdcConfig, m: nat): nat
    requires cfg.max > 0 && m <= |Chunks(s, cfg)|
  {
    |Concat(Chunks(s, cfg)[..m])|
  }

  lemma ConcatCons(c: Bytes, rest: seq<Bytes>, m: nat)
    requires 0 < m <= |rest| + 1
    ensures |Concat(([c] + rest)[..m])| == |c| + |Concat(rest[..m - 1])|
  {
    assert ([c] + rest)[..m] == [c] + rest[..m - 1];
    assert ([c] + rest[..m - 1])[1..] == rest[..m - 1];
  }

  lemma NothingBefore(s: Bytes, cfg: CdcConfig)
    requires cfg.max > 0
    ensures BytesBefore(s, cfg, 0) == 0 && s[0..] == s
  {
  }

  /** One chunk off the front. */
  lemma OneChunkOn(s: Bytes, cfg: CdcConfig, m: nat) returns (n: nat)
    requires cfg.max > 0 && 0 < m <= |Chunks(s, cfg)|
    ensures n <= |s| && m - 1 <= |Chunks(s[n..], cfg)| && |s[n..]| < |s|
    ensures Chunks(s, cfg)[m..] == Chunks(s[n..], cfg)[m - 1..]
    ensures BytesBefore(s, cfg, m) == n + BytesBefore(s[n..], cfg, m - 1)
  {
    hide ChunkLen, Concat;
    n := ChunkLen(s, cfg);
    var rest := Chunks(s[n..], cfg);
    assert Chunks(s, cfg) == [s[..n]] + rest;
    hide Chunks;
    ConcatCons(s[..n], rest, m);
    assert ([s[..n]] + rest)[m..] == rest[m - 1..];
  }

  lemma DropTwice(s: Bytes, n: nat, k: nat)
    requires n + k <= |s|
    ensures s[n..][k..] == s[n + k..]
  {
  }

  /** The chunks after the first `m` are the chunks of the remaining bytes taken alone. */
  lemma {:induction false} SuffixAtCut(s: Bytes, cfg: CdcConfig, m: nat)
    requires cfg.max > 0 && m <= |Chunks(s, cfg)|
    ensures BytesBefore(s, cfg, m) <= |s|
    ensures Chunks(s, cfg)[m..] == Chunks(s[BytesBefore(s, cfg, m)..], cfg)
    decreases |s|
  {
    hide Chunks, BytesBefore, Concat, ChunkLen;
    if m == 0 {
      NothingBefore(s, cfg);
    } else {
      var n := OneChunkOn(s, cfg, m);
      var rest := s[n..];
      SuffixAtCut(rest, cfg, m - 1);
      DropTwice(s, n, BytesBefore(rest, cfg, m - 1));
    }
  }

  lemma TailOfAppend(p: Bytes, t: Bytes, j: nat)
    requires j <= |t|
    ensures (p + t)[|p| + j..] == t[j..]
  {
  }

  lemma CutInTail(p: Bytes, t: Bytes, cfg: CdcConfig, m: nat, j: nat)
    requires cfg.max > 0 && j <= |t|
    requires m <= |Chunks(p + t, cfg)| && BytesBefore(p + t, cfg, m) == |p| + j
    ensures Chunks(p + t, cfg)[m..] == Chunks(t[j..], cfg)
  {
    hide Chunks, BytesBefore;
    SuffixAtCut(p + t, cfg, m);
    TailOfAppend(p, t, j);
  }

  /** Two files with a common tail chunk it identically from any cut they share on. */
  lemma SharedCutSharesTheRest(p: Bytes, q: Bytes, t: Bytes, cfg: CdcConfig, m: nat, n: nat, j: nat)
    requires cfg.max > 0 && j <= |t|
    requires m <= |Chunks(p + t, cfg)| && BytesBefore(p + t, cfg, m) == |p| + j
    requires n <= |Chunks(q + t, cfg)| && BytesBefore(q + t, cfg, n) == |q| + j
    ensures Chunks(p + t, cfg)[m..] == Chunks(q + t, cfg)[n..] == Chunks(t[j..], cfg)
  {
    CutInTail(p, t, cfg, m, j);
    CutInTail(q, t, cfg, n, j);
  }

  // ---- Appending ----

  lemma {:induction false} ScanExtends(s: Bytes, t: Bytes, cfg: CdcConfig, e: nat, e': nat, i: nat, fp: nat)
    requires e <= |s| && e <= e' <= |s + t|
    requires ScanFrom(s, cfg, e, i, fp) < e
    ensures ScanFrom(s + t, cfg, e', i, fp) == ScanFrom(s, cfg, e, i, fp)
    decreases e - i
  {
    assert (s + t)[i] == s[i];
    if !CutsAt(cfg, i, Roll(fp, s[i])) {
      ScanExtends(s, t, cfg, e, e', i + 1, Roll(fp, s[i]));
    }
  }

  lemma {:induction false} ScanIgnoresTail(s: Bytes, t: Bytes, cfg: CdcConfig, e: nat, i: nat, fp: nat)
    requires e <= |s|
    ensures ScanFrom(s + t, cfg, e, i, fp) == ScanFrom(s, cfg, e, i, fp)
    decreases e - i
  {
    if i < e {
      assert (s + t)[i] == s[i];
      ScanIgnoresTail(s, t, cfg, e, i + 1, Roll(fp, s[i]));
    }
  }

  lemma ChunkLenExtends(s: Bytes, t: Bytes, cfg: CdcConfig)
    requires s != [] && cfg.max > 0 && ChunkLen(s, cfg) < |s|
    ensures ChunkLen(s + t, cfg) == ChunkLen(s, cfg)
  {
    var e, e' := Min(cfg.max, |s|), Min(cfg.max, |s + t|);
    if ChunkLen(s, cfg) < e {
      ScanExtends(s, t, cfg, e, e', cfg.min, 0);
    } else {
      ScanIgnoresTail(s, t, cfg, e, cfg.min, 0);
    }
  }

  /** Appending bytes keeps every chunk but the last. */
  lemma {:induction false} AppendKeepsAllButLast(s: Bytes, t: Bytes, cfg: CdcConfig)
    requires s != [] && cfg.max > 0
    ensures Chunks(s, cfg) != []
    ensures Chunks(s, cfg)[..|Chunks(s, cfg)| - 1] <= Chunks(s + t, cfg)
  {
    hide ChunkLen;
    var n := ChunkLen(s, cfg);
    if n < |s| {
      ChunkLenExtends(s, t, cfg);
      AppendKeepsAllButLast(s[n..], t, cfg);
      assert (s + t)[..n] == s[..n] && (s + t)[n..] == s[n..] + t;
      PrefixCons(s[..n], Chunks(s[n..], cfg), Chunks(s[n..] + t, cfg));
    }
  }

  lemma PrefixCons(c: Bytes, a: seq<Bytes>, b: seq<Bytes>)
    requires a != [] && a[..|a| - 1] <= b
    ensures ([c] + a)[..|[c] + a| - 1] <= [c] + b
  {
    assert ([c] + a)[..|a|] == [c] + a[..|a| - 1];
  }

  // ---- The low bits of the hash ----

  /** The rolling hash of `w` alone. */
  function Fp(w: Bytes): nat {
    if w == [] then 0 else Roll(Fp(w[..|w| - 1]), w[|w| - 1])
  }

  lemma ModOfMultiple(x: nat, m: nat, q: nat)
    requires m > 0 && q > 0
    ensures (x % (q * m)) % m == x % m
  {
    var a, b := x / (q * m), x % (q * m);
    assert x == a * (q * m) + b;
    assert a * (q * m) == (a * q) * m;
    ModShift(b, a * q, m);
  }

  lemma ModShift(b: nat, k: nat, m: nat)
    requires m > 0
    ensures (k * m + b) % m == b % m
  {
    var c, d := b / m, b % m;
    assert k * m + c * m == (k + c) * m;
    ModUnique(k * m + b, k + c, d, m);
  }

  lemma ModUnique(x: nat, c: nat, d: nat, m: nat)
    requires m > 0 && d < m && x == c * m + d
    ensures x % m == d
  {
    var c', d' := x / m, x % m;
    assert (c - c') * m == d' - d;
    if c != c' {
      LargeMultiple(c - c', m);
    }
  }

  lemma LargeMultiple(k: int, m: nat)
    requires k != 0
    ensures k * m >= m || k * m <= 0 - m
  {
    if k > 0 {
      MultipleGrows(k, m);
    } else {
      MultipleGrows(-k, m);
      assert k * m == 0 - (-k) * m;
    }
  }

  lemma {:induction false} MultipleGrows(k: nat, m: nat)
    requires k > 0
    ensures k * m >= m
  {
    if k > 1 {
      MultipleGrows(k - 1, m);
      assert k * m == (k - 1) * m + m;
    }
  }

  lemma {:induction false} Pow2Splits(j: nat, k: nat)
    requires j <= k
    ensures Pow2(k) == Pow2(k - j) * Pow2(j)
    decreases j
  {
    if j > 0 {
      Pow2Splits(j - 1, k - 1);
      assert Pow2(k) == 2 * (Pow2(k - j) * Pow2(j - 1));
    }
  }

  lemma Pow2Word()
    ensures Pow2(32) == WORD
  {
    Pow2Splits(16, 32);
    assert Pow2(8) == 256;
    Pow2Splits(8, 16);
  }

  /** The fold reaches the hash mod 2^k from any two hashes that agree mod 2^(k-1). */
  lemma RollLow(a: nat, b: nat, x: byte, k: nat)
    requires 0 < k <= 32 && a % Pow2(k - 1) == b % Pow2(k - 1)
    ensures Roll(a, x) % Pow2(k) == Roll(b, x) % Pow2(k)
  {
    var h, m := Pow2(k - 1), Pow2(k);
    Pow2Word();
    Pow2Splits(k, 32);
    ModOfMultiple(2 * a + Gear(x), m, Pow2(32 - k));
    ModOfMultiple(2 * b + Gear(x), m, Pow2(32 - k));
    DoubleMod(a, Gear(x), h);
    DoubleMod(b, Gear(x), h);
  }

  lemma DoubleMod(a: nat, g: nat, h: nat)
    requires h > 0
    ensures (2 * a + g) % (2 * h) == (2 * (a % h) + g) % (2 * h)
  {
    var c, d := a / h, a % h;
    assert a == c * h + d;
    assert 2 * a + g == c * (2 * h) + (2 * d + g);
    ModShift(2 * d + g, c, 2 * h);
  }

  /** The low `k` bits of the hash depend only on the last `k` bytes scanned. */
  lemma {:induction false} LowBitsAreLocal(u: Bytes, v: Bytes, w: Bytes, k: nat)
    requires k <= 32 && k <= |w|
    ensures Fp(u + w) % Pow2(k) == Fp(v + w) % Pow2(k)
    decreases k
  {
    if k > 0 {
      var w', x := w[..|w| - 1], w[|w| - 1];
      LowBitsAreLocal(u, v, w', k - 1);
      assert (u + w)[..|u + w| - 1] == u + w' && (v + w)[..|v + w| - 1] == v + w';
      RollLow(Fp(u + w'), Fp(v + w'), x, k);
    }
  }

  /** The gear values of the bytes, each doubled for every byte after it. */
  function GearSum(s: Bytes): nat {
    if s == [] then 0 else Pow2(|s| - 1) * Gear(s[0]) + GearSum(s[1..])
  }

  lemma {:induction false} GearSumSnoc(s: Bytes, x: byte)
    ensures GearSum(s + [x]) == 2 * GearSum(s) + Gear(x)
    decreases |s|
  {
    hide Gear;
    if s == [] {
      assert [] + [x] == [x] && [x][1..] == [] && Pow2(0) == 1;
    } else {
      GearSumSnoc(s[1..], x);
      assert (s + [x])[1..] == s[1..] + [x];
      DoubledTerm(|s|, Gear(s[0]));
    }
  }

  lemma DoubledTerm(k: nat, g: nat)
    requires k > 0
    ensures Pow2(k) * g == 2 * (Pow2(k - 1) * g)
  {
  }

  /** The rolling hash is that sum modulo the word. */
  lemma {:induction false} HashIsGearSum(s: Bytes)
    ensures Fp(s) == GearSum(s) % WORD
    decreases |s|
  {
    hide Gear, GearSum;
    if s == [] {
      NoGears();
    } else {
      var init, x := s[..|s| - 1], s[|s| - 1];
      assert s == init + [x];
      HashIsGearSum(init);
      GearSumSnoc(init, x);
      var c := GearSum(init) / WORD;
      assert 2 * GearSum(init) + Gear(x) == (2 * c) * WORD + (2 * (GearSum(init) % WORD) + Gear(x));
      ModShift(2 * (GearSum(init) % WORD) + Gear(x), 2 * c, WORD);
    }
  }

  lemma NoGears()
    ensures GearSum([]) == 0
  {
  }

  // ---- Finding the cuts again after an edit ----

  /** The scan that reaches `j` stops there if the test passes there, and if it stops short it does. */
  lemma {:induction false} ScanIsFirstCut(s: Bytes, cfg: CdcConfig, end: nat, i: nat, j: nat)
    requires cfg.min <= i <= j < end <= |s|
    requires j < ScanFrom(s, cfg, end, i, Fp(s[cfg.min..i]))
    ensures CutsAt(cfg, j, Fp(s[cfg.min..j + 1])) ==> ScanFrom(s, cfg, end, i, Fp(s[cfg.min..i])) == j + 1
    ensures ScanFrom(s, cfg, end, i, Fp(s[cfg.min..i])) == j + 1 < end ==> CutsAt(cfg, j, Fp(s[cfg.min..j + 1]))
    decreases end - i
  {
    FpStep(s, cfg.min, i);
    if i < j {
      ScanIsFirstCut(s, cfg, end, i + 1, j);
    }
  }

  /** The first chunk ends with the first byte past `min` where the hash of the bytes since passes, or at its limit. */
  lemma ChunkEndsAtFirstCut(s: Bytes, cfg: CdcConfig, j: nat)
    requires s != [] && cfg.max > 0 && cfg.min <= j < ChunkLen(s, cfg)
    ensures CutsAt(cfg, j, Fp(s[cfg.min..j + 1])) ==> j == ChunkLen(s, cfg) - 1
    ensures j == ChunkLen(s, cfg) - 1 && j + 1 < Min(cfg.max, |s|) ==> CutsAt(cfg, j, Fp(s[cfg.min..j + 1]))
  {
    hide CutsAt;
    assert s[cfg.min..cfg.min] == [];
    ScanIsFirstCut(s, cfg, Min(cfg.max, |s|), cfg.min, j);
  }

  lemma FpStep(s: Bytes, lo: nat, i: nat)
    requires lo <= i < |s|
    ensures Fp(s[lo..i + 1]) == Roll(Fp(s[lo..i]), s[i])
  {
    assert s[lo..i + 1][..i - lo] == s[lo..i];
  }

  lemma Pow2Divides(j: nat, k: nat, x: nat)
    requires j <= k && x % Pow2(k) == 0
    ensures x % Pow2(j) == 0
  {
    Pow2Splits(j, k);
    ModOfMultiple(x, Pow2(j), Pow2(k - j));
  }

  // ---- The masks ----

  /** Between two powers of two the logarithm is the exponent of the lower. */
  lemma {:induction false} BitsIsLog(avg: nat, k: nat)
    requires Pow2(k) <= avg < Pow2(k + 1)
    ensures Bits(avg) == k
  {
    if k > 0 {
      BitsIsLog(avg / 2, k - 1);
    }
  }

  /**
   * The cut test for an average size between 2^k and 2^(k+1): below it the low k + 2 bits of the hash are
   * zero, from it on the low k - 2. Shift counts are taken mod 32.
   */
  lemma CutTest(cfg: CdcConfig, k: nat, i: nat, fp: nat)
    requires Pow2(k) <= cfg.avg < Pow2(k + 1)
    ensures CutsAt(cfg, i, fp) <==> fp % (if i < cfg.avg then Pow2((k + 2) % 32) else Pow2((k - 2) % 32)) == 0
  {
    hide Pow2;
    BitsIsLog(cfg.avg, k);
  }

  /** The gear table is the sequence of a linear congruential generator; its first entries. */
  lemma GearStarts()
    ensures Gear(0) == 0x42d0_d7c4 && Gear(1) == 0xe926_0053 && Gear(2) == 0x3f99_0996
  {
  }

  /** A hash that passes below the average passes anywhere. */
  lemma StrictImpliesLoose(cfg: CdcConfig, k: nat, i: nat, fp: nat)
    requires Pow2(k) <= cfg.avg < Pow2(k + 1) && 2 <= k < 30 && fp % Pow2(k + 2) == 0
    ensures CutsAt(cfg, i, fp)
  {
    hide Pow2, CutsAt;
    CutTest(cfg, k, i, fp);
    Pow2Divides(k - 2, k + 2, fp);
  }

  lemma WindowHash(u: Bytes, w: Bytes, t: Bytes, lo: nat)
    requires lo <= |u|
    ensures (u + w + t)[lo..|u| + |w|] == u[lo..] + w
  {
  }

  /** The strict cut made after `w` depends on `w` alone, once `w` fills the strict mask. */
  lemma StrictCutIsLocal(u: Bytes, v: Bytes, w: Bytes, t: Bytes, cfg: CdcConfig, k: nat)
    requires Pow2(k) <= cfg.avg < Pow2(k + 1) && 2 <= k < 30 && |w| == k + 2
    requires cfg.min <= |u| && |u| + |w| <= cfg.avg && cfg.min <= |v|
    requires CutsAt(cfg, |u| + |w| - 1, Fp((u + w + t)[cfg.min..|u| + |w|]))
    ensures CutsAt(cfg, |v| + |w| - 1, Fp((v + w + t)[cfg.min..|v| + |w|]))
  {
    hide Pow2, CutsAt, Fp;
    LowBitsAreLocal(u[cfg.min..], v[cfg.min..], w, |w|);
    CutTest(cfg, k, |u| + |w| - 1, Fp(u[cfg.min..] + w));
    WindowHash(u, w, t, cfg.min);
    WindowHash(v, w, t, cfg.min);
    StrictImpliesLoose(cfg, k, |v| + |w| - 1, Fp(v[cfg.min..] + w));
  }

  /** The loose test after `w`, from `avg` on, depends on `w` alone, once `w` fills the loose mask. */
  lemma LooseCutIsLocal(u: Bytes, v: Bytes, w: Bytes, t: Bytes, cfg: CdcConfig, k: nat)
    requires Pow2(k) <= cfg.avg < Pow2(k + 1) && 2 <= k < 34 && |w| == k - 2
    requires cfg.min <= |u| && cfg.avg < |u| + |w| && cfg.min <= |v| && cfg.avg < |v| + |w|
    ensures CutsAt(cfg, |u| + |w| - 1, Fp((u + w + t)[cfg.min..|u| + |w|])) <==>
      CutsAt(cfg, |v| + |w| - 1, Fp((v + w + t)[cfg.min..|v| + |w|]))
  {
    hide Pow2, CutsAt, Fp;
    LowBitsAreLocal(u[cfg.min..], v[cfg.min..], w, |w|);
    CutTest(cfg, k, |u| + |w| - 1, Fp(u[cfg.min..] + w));
    CutTest(cfg, k, |v| + |w| - 1, Fp(v[cfg.min..] + w));
    WindowHash(u, w, t, cfg.min);
    WindowHash(v, w, t, cfg.min);
  }

  /** Two chunks that scan a shared window to its end, one cutting there, and the other passing the test too. */
  lemma SharedCutResyncs(u: Bytes, v: Bytes, w: Bytes, t: Bytes, cfg: CdcConfig)
    requires cfg.max > 0 && cfg.min <= |u| && cfg.min <= |v| && |u| + |w| > cfg.min && |v| + |w| > cfg.min
    requires ChunkLen(u + w + t, cfg) == |u| + |w| < Min(cfg.max, |u + w + t|)
    requires ChunkLen(v + w + t, cfg) >= |v| + |w|
    requires CutsAt(cfg, |u| + |w| - 1, Fp((u + w + t)[cfg.min..|u| + |w|])) ==>
      CutsAt(cfg, |v| + |w| - 1, Fp((v + w + t)[cfg.min..|v| + |w|]))
    ensures Chunks(u + w + t, cfg)[1..] == Chunks(v + w + t, cfg)[1..] == Chunks(t, cfg)
  {
    var x, y := u + w + t, v + w + t;
    assert x[cfg.min..cfg.min] == [] && y[cfg.min..cfg.min] == [];
    ScanIsFirstCut(x, cfg, Min(cfg.max, |x|), cfg.min, |u| + |w| - 1);
    ScanIsFirstCut(y, cfg, Min(cfg.max, |y|), cfg.min, |v| + |w| - 1);
    assert x[|u| + |w|..] == t && y[|v| + |w|..] == t;
  }

  /**
   * Resynchronisation. Let one chunk end inside its limits by the strict test right after `w`, the
   * window that fills the strict mask. Any other chunk that scans `w` and gets to its end without an
   * earlier cut ends there too, whatever came before, and from there on both files chunk alike.
   */
  lemma StrictCutResyncs(u: Bytes, v: Bytes, w: Bytes, t: Bytes, cfg: CdcConfig, k: nat)
    requires cfg.max > 0 && Pow2(k) <= cfg.avg < Pow2(k + 1) && 2 <= k < 30 && |w| == k + 2
    requires cfg.min <= |u| && |u| + |w| <= cfg.avg && cfg.min <= |v|
    requires ChunkLen(u + w + t, cfg) == |u| + |w| < Min(cfg.max, |u + w + t|)
    requires ChunkLen(v + w + t, cfg) >= |v| + |w|
    ensures Chunks(u + w + t, cfg)[1..] == Chunks(v + w + t, cfg)[1..] == Chunks(t, cfg)
  {
    hide CutsAt, Fp, Pow2, Chunks, ChunkLen;
    if CutsAt(cfg, |u| + |w| - 1, Fp((u + w + t)[cfg.min..|u| + |w|])) {
      StrictCutIsLocal(u, v, w, t, cfg, k);
    }
    SharedCutResyncs(u, v, w, t, cfg);
  }

  /** The same for a cut by the loose test, at or past `avg` in both chunks. */
  lemma LooseCutResyncs(u: Bytes, v: Bytes, w: Bytes, t: Bytes, cfg: CdcConfig, k: nat)
    requires cfg.max > 0 && Pow2(k) <= cfg.avg < Pow2(k + 1) && 2 <= k < 34 && |w| == k - 2
    requires cfg.min <= |u| && cfg.avg < |u| + |w| && cfg.min <= |v| && cfg.avg < |v| + |w|
    requires |u| + |w| > cfg.min && |v| + |w| > cfg.min
    requires ChunkLen(u + w + t, cfg) == |u| + |w| < Min(cfg.max, |u + w + t|)
    requires ChunkLen(v + w + t, cfg) >= |v| + |w|
    ensures Chunks(u + w + t, cfg)[1..] == Chunks(v + w + t, cfg)[1..] == Chunks(t, cfg)
  {
    hide CutsAt, Fp, Pow2, Chunks, ChunkLen;
    LooseCutIsLocal(u, v, w, t, cfg, k);
    SharedCutResyncs(u, v, w, t, cfg);
  }
}
