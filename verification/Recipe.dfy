/**
 * The skeleton recipe: only the bytes between zero spans become chunks; the layout
 * [chunks, zero bytes, chunks, zero bytes, ...] says where the zeros go back.
 */
module Recipe {
  import opened Basics
  import opened Cdc
  import opened CdcLaws
  import opened Spans

  datatype Recipe = Recipe(chunks: seq<Bytes>, layout: seq<nat>)

  /** The recipe for `skel` from `pos` on, walking spans that start no earlier. */
  function RecipeFrom(skel: Bytes, spans: seq<Span>, pos: nat, cdc: CdcConfig): Recipe
    requires cdc.max > 0 && pos <= |skel|
    requires Separated(spans, |skel|) && (spans != [] ==> pos <= spans[0].lo)
    decreases |spans|
  {
    if spans == [] then
      if pos < |skel| then var cs := Chunks(skel[pos..], cdc); Recipe(cs, [|cs|, 0]) else Recipe([], [])
    else
      var s := spans[0];
      var cs := Chunks(skel[pos..s.lo], cdc);
      var rest := RecipeFrom(skel, spans[1..], s.hi, cdc);
      Then(Recipe(cs, [|cs|, s.hi - s.lo]), rest)
  }

  function Then(a: Recipe, b: Recipe): Recipe { Recipe(a.chunks + b.chunks, a.layout + b.layout) }

  lemma ThenAssociates(a: Recipe, b: Recipe, c: Recipe)
    ensures Then(a, Then(b, c)) == Then(Then(a, b), c)
  {
    assert a.chunks + (b.chunks + c.chunks) == (a.chunks + b.chunks) + c.chunks;
    assert a.layout + (b.layout + c.layout) == (a.layout + b.layout) + c.layout;
  }

  /** The chunks of the structure before span `s` and the zero run of the span itself. */
  method RecipeRun(skel: Bytes, pos: nat, s: Span, cdc: CdcConfig) returns (run: Recipe)
    requires cdc.max > 0 && pos <= s.lo < s.hi <= |skel|
    ensures var cs := Chunks(skel[pos..s.lo], cdc); run == Recipe(cs, [|cs|, s.hi - s.lo])
  {
    var cs := [];
    if s.lo > pos {
      cs := CdcChunks(skel[pos..s.lo], cdc);
    }
    run := Recipe(cs, [|cs|, s.hi - s.lo]);
  }

  method BuildRecipe(skel: Bytes, spans: seq<Span>, cdc: CdcConfig) returns (r: Recipe)
    requires cdc.max > 0 && Separated(spans, |skel|)
    ensures r == RecipeFrom(skel, spans, 0, cdc)
  {
    hide Chunks, RecipeFrom, Then;
    r := Recipe([], []);
    ThenNothing(RecipeFrom(skel, spans, 0, cdc));
    var pos: nat, todo := 0, spans;
    while todo != []
      invariant pos <= |skel| && Separated(todo, |skel|) && (todo != [] ==> pos <= todo[0].lo)
      invariant Then(r, RecipeFrom(skel, todo, pos, cdc)) == RecipeFrom(skel, spans, 0, cdc)
      decreases |todo|
    {
      var s := todo[0];
      var run := RecipeRun(skel, pos, s, cdc);
      RecipeStep(skel, todo, pos, cdc, r, run);
      r, pos, todo := Then(r, run), s.hi, todo[1..];
    }
    RecipeEnd(skel, pos, cdc);
    ThenNothing(r);
    if pos < |skel| {
      var cs := CdcChunks(skel[pos..], cdc);
      r := Then(r, Recipe(cs, [|cs|, 0]));
    }
  }

  lemma ThenNothing(r: Recipe)
    ensures Then(Recipe([], []), r) == r == Then(r, Recipe([], []))
  {
  }

  lemma RecipeStep(skel: Bytes, spans: seq<Span>, pos: nat, cdc: CdcConfig, done: Recipe, run: Recipe)
    requires cdc.max > 0 && pos <= |skel| && Separated(spans, |skel|) && spans != [] && pos <= spans[0].lo
    requires var cs := Chunks(skel[pos..spans[0].lo], cdc); run == Recipe(cs, [|cs|, spans[0].hi - spans[0].lo])
    ensures Separated(spans[1..], |skel|) && (|spans| > 1 ==> spans[0].hi <= spans[1].lo)
    ensures Then(done, RecipeFrom(skel, spans, pos, cdc)) == Then(Then(done, run), RecipeFrom(skel, spans[1..], spans[0].hi, cdc))
  {
    hide Chunks, Then;
    ThenAssociates(done, run, RecipeFrom(skel, spans[1..], spans[0].hi, cdc));
  }

  lemma RecipeEnd(skel: Bytes, pos: nat, cdc: CdcConfig)
    requires cdc.max > 0 && pos <= |skel|
    ensures RecipeFrom(skel, [], pos, cdc) ==
      if pos < |skel| then Recipe(Chunks(skel[pos..], cdc), [|Chunks(skel[pos..], cdc)|, 0]) else Recipe([], [])
  {
  }

  // ---- Reading a recipe back ----

  function LayoutZeros(layout: seq<nat>): nat { if |layout| > 1 then layout[1] else 0 }

  function LayoutRest(layout: seq<nat>): seq<nat> { if |layout| > 1 then layout[2..] else [] }

  function AssembleRuns(parts: seq<Bytes>, layout: seq<nat>): Result<Bytes>
    decreases |layout|
  {
    if layout == [] then Ok([])
    else if layout[0] > |parts| then Err(LayoutOverrun)
    else
      Prepend(Concat(parts[..layout[0]]) + Zeros(LayoutZeros(layout)),
              AssembleRuns(parts[layout[0]..], LayoutRest(layout)))
  }

  /** An empty layout is the older form: a plain concatenation. */
  function Assemble(parts: seq<Bytes>, layout: seq<nat>): Result<Bytes> {
    if layout == [] then Ok(Concat(parts)) else AssembleRuns(parts, layout)
  }

  function Prepend(out: Bytes, r: Result<Bytes>): Result<Bytes> {
    if r.Err? then r else Ok(out + r.value)
  }

  lemma PrependTwice(a: Bytes, b: Bytes, r: Result<Bytes>)
    ensures Prepend(a, Prepend(b, r)) == Prepend(a + b, r)
    ensures Prepend([], r) == r
  {
    if r.Ok? {
      assert a + (b + r.value) == (a + b) + r.value;
      assert [] + r.value == r.value;
    }
  }

  /** The desktop client's reader, which appends to a growing vector. */
  method AssembleSkeleton(parts: seq<Bytes>, layout: seq<nat>) returns (r: Result<Bytes>)
    ensures r == Assemble(parts, layout)
  {
    if layout == [] {
      var all := ConcatAll(parts);
      return Ok(all);
    }
    var out: Bytes := [];
    var left, recipe := parts, layout;
    PrependTwice([], [], AssembleRuns(parts, layout));
    while recipe != []
      invariant Prepend(out, AssembleRuns(left, recipe)) == AssembleRuns(parts, layout)
      decreases |recipe|
    {
      var nc, z := recipe[0], LayoutZeros(recipe);
      if nc > |left| {
        return Err(LayoutOverrun);
      }
      PrependTwice(out, Concat(left[..nc]) + Zeros(z), AssembleRuns(left[nc..], LayoutRest(recipe)));
      var run := ConcatAll(left[..nc]);
      out := out + (run + Zeros(z));
      left, recipe := left[nc..], LayoutRest(recipe);
    }
    assert out + [] == out;
    return Ok(out);
  }

  method ConcatAll(parts: seq<Bytes>) returns (out: Bytes)
    ensures out == Concat(parts)
  {
    out := [];
    for k := 0 to |parts|
      invariant out == Concat(parts[..k])
    {
      assert parts[..k + 1] == parts[..k] + [parts[k]];
      ConcatAppend(parts[..k], [parts[k]]);
      assert Concat([parts[k]]) == parts[k] + [];
      out := out + parts[k];
    }
    assert parts[..|parts|] == parts;
  }

  // ---- What a recipe denotes ----

  /** `skel` with every span zeroed. */
  ghost function ZeroedOn(skel: Bytes, spans: seq<Span>): (z: Bytes)
    ensures |z| == |skel|
  {
    seq(|skel|, i requires 0 <= i < |skel| => if Covered(spans, i) then 0 else skel[i])
  }

  ghost predicate ZeroOn(skel: Bytes, spans: seq<Span>) {
    forall i :: 0 <= i < |skel| && Covered(spans, i) ==> skel[i] == 0
  }

  lemma {:induction false} RecipeRunsDenote(skel: Bytes, spans: seq<Span>, pos: nat, cdc: CdcConfig)
    requires cdc.max > 0 && pos <= |skel|
    requires Separated(spans, |skel|) && (spans != [] ==> pos <= spans[0].lo)
    ensures var r := RecipeFrom(skel, spans, pos, cdc);
      AssembleRuns(r.chunks, r.layout) == Ok(ZeroedOn(skel, spans)[pos..])
    decreases |spans|
  {
    hide Chunks, ZeroedOn;
    var r := RecipeFrom(skel, spans, pos, cdc);
    if spans == [] {
      ZeroedOnNothing(skel);
      if pos < |skel| {
        TailRunDenotes(skel[pos..], cdc);
      } else {
        assert r.chunks == [] && r.layout == [] && skel[pos..] == [];
      }
    } else {
      var s := spans[0];
      var cs := Chunks(skel[pos..s.lo], cdc);
      var rest := RecipeFrom(skel, spans[1..], s.hi, cdc);
      RecipeRunsDenote(skel, spans[1..], s.hi, cdc);
      HeadRunDenotes(cs, s.hi - s.lo, rest, skel[pos..s.lo], ZeroedOn(skel, spans[1..])[s.hi..], cdc);
      ZeroedOnSplits(skel, spans, pos);
    }
  }

  lemma ZeroedOnNothing(skel: Bytes)
    ensures ZeroedOn(skel, []) == skel
  {
  }

  lemma TailRunDenotes(tail: Bytes, cdc: CdcConfig)
    requires cdc.max > 0 && tail != []
    ensures var cs := Chunks(tail, cdc); AssembleRuns(cs, [|cs|, 0]) == Ok(tail)
  {
    var cs := Chunks(tail, cdc);
    ChunksConcat(tail, cdc);
    assert cs[..|cs|] == cs && LayoutRest([|cs|, 0]) == [] && Zeros(0) == [];
    assert tail + [] + [] == tail;
  }

  lemma HeadRunDenotes(cs: seq<Bytes>, z: nat, rest: Recipe, head: Bytes, tail: Bytes, cdc: CdcConfig)
    requires cdc.max > 0 && cs == Chunks(head, cdc)
    requires AssembleRuns(rest.chunks, rest.layout) == Ok(tail)
    ensures AssembleRuns(cs + rest.chunks, [|cs|, z] + rest.layout) == Ok(head + Zeros(z) + tail)
  {
    ChunksConcat(head, cdc);
    var parts, layout := cs + rest.chunks, [|cs|, z] + rest.layout;
    assert parts[..|cs|] == cs && parts[|cs|..] == rest.chunks;
    assert LayoutRest(layout) == rest.layout && LayoutZeros(layout) == z;
  }

  lemma ZeroedOnSplits(skel: Bytes, spans: seq<Span>, pos: nat)
    requires spans != [] && Separated(spans, |skel|) && pos <= spans[0].lo
    ensures var s := spans[0];
      ZeroedOn(skel, spans)[pos..] ==
      skel[pos..s.lo] + Zeros(s.hi - s.lo) + ZeroedOn(skel, spans[1..])[s.hi..]
  {
    var s := spans[0];
    assert spans == [s] + spans[1..];
    forall i | 0 <= i < |skel|
      ensures Covered(spans, i) <==> s.lo <= i < s.hi || Covered(spans[1..], i)
      ensures Covered(spans[1..], i) ==> i > s.hi
    {
      CoveredCons(s, spans[1..], i);
      if Covered(spans[1..], i) {
        TailStartsLater(spans, |skel|, i);
      }
    }
  }

  /** Every recipe rebuilds its skeleton with the spans zeroed. */
  lemma RecipeDenotes(skel: Bytes, spans: seq<Span>, cdc: CdcConfig)
    requires cdc.max > 0 && Separated(spans, |skel|)
    ensures var r := RecipeFrom(skel, spans, 0, cdc); Assemble(r.chunks, r.layout) == Ok(ZeroedOn(skel, spans))
  {
    RecipeRunsDenote(skel, spans, 0, cdc);
    assert ZeroedOn(skel, spans)[0..] == ZeroedOn(skel, spans);
  }

  /** So it is lossless exactly when the skeleton is zero on the spans. */
  lemma RecipeIsLossless(skel: Bytes, spans: seq<Span>, cdc: CdcConfig)
    requires cdc.max > 0 && Separated(spans, |skel|)
    ensures var r := RecipeFrom(skel, spans, 0, cdc);
      Assemble(r.chunks, r.layout) == Ok(skel) <==> ZeroOn(skel, spans)
  {
    RecipeDenotes(skel, spans, cdc);
    if ZeroOn(skel, spans) {
      assert ZeroedOn(skel, spans) == skel;
    }
    if ZeroedOn(skel, spans) == skel {
      assert forall i :: 0 <= i < |skel| ==> ZeroedOn(skel, spans)[i] == skel[i];
    }
  }

  // ---- The layout as it is stored ----

  /** So many content chunks, then so many zeros. */
  datatype Run = Run(chunks: nat, zeros: nat)

  /** A layout is a flat list: chunks and zeros of each run in turn. */
  function Flat(runs: seq<Run>): seq<nat> {
    if runs == [] then [] else [runs[0].chunks, runs[0].zeros] + Flat(runs[1..])
  }

  function ChunksNamed(runs: seq<Run>): nat {
    if runs == [] then 0 else runs[0].chunks + ChunksNamed(runs[1..])
  }

  /** The bytes of the runs, whose chunks are those from `from` on. */
  function BytesOfRuns(parts: seq<Bytes>, runs: seq<Run>, from: nat): Bytes
    requires from + ChunksNamed(runs) <= |parts|
    decreases |runs|
  {
    if runs == [] then []
    else
      Concat(parts[from..from + runs[0].chunks]) + Zeros(runs[0].zeros) +
      BytesOfRuns(parts, runs[1..], from + runs[0].chunks)
  }

  /** Reading a layout: its runs in turn, and a failure exactly when it names more chunks than there are. */
  lemma LayoutReads(parts: seq<Bytes>, runs: seq<Run>)
    requires runs != []
    ensures Assemble(parts, Flat(runs)) ==
      if ChunksNamed(runs) <= |parts| then Ok(BytesOfRuns(parts, runs, 0)) else Err(LayoutOverrun)
  {
    RunsRead(parts, runs, 0);
    assert parts[0..] == parts;
  }

  lemma {:induction false} RunsRead(parts: seq<Bytes>, runs: seq<Run>, from: nat)
    requires from <= |parts|
    ensures AssembleRuns(parts[from..], Flat(runs)) ==
      if from + ChunksNamed(runs) <= |parts| then Ok(BytesOfRuns(parts, runs, from)) else Err(LayoutOverrun)
    decreases |runs|
  {
    hide Concat, Zeros;
    if runs != [] {
      var r, layout := runs[0], Flat(runs);
      assert layout[0] == r.chunks && LayoutZeros(layout) == r.zeros && LayoutRest(layout) == Flat(runs[1..]);
      if from + r.chunks <= |parts| {
        RunsRead(parts, runs[1..], from + r.chunks);
        assert parts[from..][r.chunks..] == parts[from + r.chunks..];
        assert parts[from..][..r.chunks] == parts[from..from + r.chunks];
      }
    }
  }

  // ---- The recipe of a list of zero spans ----

  ghost predicate SameCover(a: seq<Span>, b: seq<Span>, len: nat) {
    forall i :: 0 <= i < len ==> (Covered(a, i) <==> Covered(b, i))
  }

  /** The recipe over the merged form of `spans`. */
  ghost predicate RecipeFor(skel: Bytes, spans: seq<Span>, cdc: CdcConfig, r: Recipe)
    requires cdc.max > 0
  {
    exists m: seq<Span> :: Separated(m, |skel|) && SameCover(m, spans, |skel|) && r == RecipeFrom(skel, m, 0, cdc)
  }

  /** There is one such recipe. */
  lemma RecipeIsUnique(skel: Bytes, spans: seq<Span>, cdc: CdcConfig, r: Recipe, q: Recipe)
    requires cdc.max > 0 && RecipeFor(skel, spans, cdc, r) && RecipeFor(skel, spans, cdc, q)
    ensures r == q
  {
    hide RecipeFrom;
    var m: seq<Span> :| Separated(m, |skel|) && SameCover(m, spans, |skel|) && r == RecipeFrom(skel, m, 0, cdc);
    var n: seq<Span> :| Separated(n, |skel|) && SameCover(n, spans, |skel|) && q == RecipeFrom(skel, n, 0, cdc);
    SeparatedIsCanonical(m, n, |skel|);
  }

  lemma ConcatTwo(a: seq<Bytes>, b: seq<Bytes>)
    ensures |Concat(a + b)| == |Concat(a)| + |Concat(b)|
  {
    ConcatAppend(a, b);
  }

  lemma {:induction false} RunsTransfer(skel: Bytes, spans: seq<Span>, pos: nat, cdc: CdcConfig)
    requires cdc.max > 0 && pos <= |skel|
    requires Separated(spans, |skel|) && (spans != [] ==> pos <= spans[0].lo)
    ensures |Concat(RecipeFrom(skel, spans, pos, cdc).chunks)| + SpanTotal(spans) == |skel| - pos
    decreases |spans|
  {
    hide Chunks;
    if spans == [] {
      if pos < |skel| {
        ChunksConcat(skel[pos..], cdc);
      }
    } else {
      var s := spans[0];
      RunsTransfer(skel, spans[1..], s.hi, cdc);
      ChunksConcat(skel[pos..s.lo], cdc);
      ConcatTwo(Chunks(skel[pos..s.lo], cdc), RecipeFrom(skel, spans[1..], s.hi, cdc).chunks);
      SpanTotalFirst(spans);
    }
  }

  lemma {:induction false} RunsAreChunks(skel: Bytes, spans: seq<Span>, pos: nat, cdc: CdcConfig)
    requires cdc.max > 0 && pos <= |skel|
    requires Separated(spans, |skel|) && (spans != [] ==> pos <= spans[0].lo)
    ensures forall c :: c in RecipeFrom(skel, spans, pos, cdc).chunks ==> 0 < |c| <= cdc.max
    decreases |spans|
  {
    hide Chunks;
    if spans == [] {
      ChunksFit(skel[pos..], cdc);
    } else {
      ChunksFit(skel[pos..spans[0].lo], cdc);
      RunsAreChunks(skel, spans[1..], spans[0].hi, cdc);
    }
  }

  lemma ChunksFit(s: Bytes, cdc: CdcConfig)
    requires cdc.max > 0
    ensures forall c :: c in Chunks(s, cdc) ==> 0 < |c| <= cdc.max
  {
    hide Chunks;
    forall c | c in Chunks(s, cdc)
      ensures 0 < |c| <= cdc.max
    {
      var i :| 0 <= i < |Chunks(s, cdc)| && Chunks(s, cdc)[i] == c;
      ChunkLengths(s, cdc, i);
    }
  }

  /** Every block of a recipe keeps to the chunker's limit. */
  lemma RecipeChunksFit(skel: Bytes, spans: seq<Span>, cdc: CdcConfig, r: Recipe)
    requires cdc.max > 0 && RecipeFor(skel, spans, cdc, r)
    ensures forall c :: c in r.chunks ==> 0 < |c| <= cdc.max
  {
    hide RecipeFrom;
    var m: seq<Span> :| Separated(m, |skel|) && SameCover(m, spans, |skel|) && r == RecipeFrom(skel, m, 0, cdc);
    RunsAreChunks(skel, m, 0, cdc);
  }

  /** Conservation: the bytes transferred and the bytes left to be synthesized make up the skeleton. */
  lemma RecipeTransfers(skel: Bytes, spans: seq<Span>, cdc: CdcConfig, r: Recipe)
    requires cdc.max > 0 && RecipeFor(skel, spans, cdc, r)
    ensures |Concat(r.chunks)| + CoveredCount(spans, |skel|) == |skel|
  {
    hide RecipeFrom;
    var m: seq<Span> :| Separated(m, |skel|) && SameCover(m, spans, |skel|) && r == RecipeFrom(skel, m, 0, cdc);
    RunsTransfer(skel, m, 0, cdc);
    SeparatedCount(m, |skel|);
    SameCoverSameCount(m, spans, |skel|);
  }
}
