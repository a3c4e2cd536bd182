/** ProTracker modules: where the samples lie, and the pattern adapter of the song simulation. */
module ModTables {
  import opened Basics
  import opened Plan
  import opened Regions
  import opened Skeleton
  import opened Seek
  import opened FenceCoverage

  const HEADER_BYTES: nat := 1084

  // ---- The header ----

  function U16be(b: Bytes, o: nat): nat
    requires o + 2 <= |b|
  {
    b[o] as int * 256 + b[o + 1] as int
  }

  predicate IsDigit(c: char) { '0' <= c <= '9' }

  function Digit(c: char): nat
    requires IsDigit(c)
  {
    c as int - '0' as int
  }

  function Tag(b: Bytes): (t: string)
    requires |b| >= HEADER_BYTES
    ensures |t| == 4
  {
    seq(4, i requires 0 <= i < 4 => b[1080 + i] as char)
  }

  /** 0 for an unknown tag. */
  function ModChannels(t: string): nat
    requires |t| == 4
  {
    if t == "M.K." || t == "M!K!" || t == "FLT4" || t == "4CHN" then 4
    else if t == "6CHN" then 6
    else if t == "FLT8" || t == "8CHN" || t == "OCTA" || t == "CD81" then 8
    else if IsDigit(t[0]) && t[1..] == "CHN" then Digit(t[0])
    else if IsDigit(t[0]) && IsDigit(t[1]) && (t[2..] == "CH" || t[2..] == "CN") then Digit(t[0]) * 10 + Digit(t[1])
    else if t[..3] == "TDZ" && IsDigit(t[3]) then Digit(t[3])
    else 0
  }

  /** Length in bytes of sample `i`. */
  function SampleLength(b: Bytes, i: nat): nat
    requires |b| >= HEADER_BYTES && i < 31
  {
    U16be(b, 20 + i * 30 + 22) * 2
  }

  function MaxByte(s: Bytes): nat {
    if s == [] then 0 else Max(MaxByte(s[..|s| - 1]), s[|s| - 1] as int)
  }

  method HighestPattern(b: Bytes) returns (maxPat: nat)
    requires |b| >= HEADER_BYTES
    ensures maxPat == MaxByte(b[952..1080])
    ensures forall k :: 952 <= k < 1080 ==> b[k] as int <= maxPat
  {
    maxPat := 0;
    for i := 0 to 128
      invariant maxPat == MaxByte(b[952..952 + i])
      invariant forall k :: 952 <= k < 952 + i ==> b[k] as int <= maxPat
    {
      assert b[952..952 + i + 1][..i] == b[952..952 + i];
      if b[952 + i] as int > maxPat {
        maxPat := b[952 + i] as int;
      }
    }
  }

  function SampleStart(b: Bytes, ch: nat): nat
    requires |b| >= HEADER_BYTES
  {
    FirstSample(MaxByte(b[952..1080]), ch)
  }

  /** Sample data starts after the patterns: 64 rows of 4 bytes a channel each. */
  function FirstSample(maxPat: nat, ch: nat): nat {
    HEADER_BYTES + (maxPat + 1) * (64 * ch * 4)
  }

  // ---- Where the samples lie ----

  /** The cursor before sample `i`; `done` once a sample ran past the end of the file. */
  datatype Walk = Walk(off: nat, done: bool)

  function WalkTo(b: Bytes, start: nat, i: nat): Walk
    requires |b| >= HEADER_BYTES && i <= 31
  {
    if i == 0 then Walk(start, false)
    else
      var w, n := WalkTo(b, start, i - 1), SampleLength(b, i - 1);
      if w.done || n <= 2 then w
      else if w.off + n > |b| then Walk(w.off, true)
      else Walk(w.off + n, false)
  }

  /** The offset of sample `i`, if it is there. */
  function Located(b: Bytes, start: nat, i: nat): Option<nat>
    requires |b| >= HEADER_BYTES && i < 31
  {
    var w := WalkTo(b, start, i);
    if !w.done && SampleLength(b, i) > 2 then Some(w.off) else None
  }

  /** The streamable slot of sample `i`: cut short at the end of the file, absent when nothing of it is there. */
  function SlotFor(b: Bytes, start: nat, i: nat): Option<Slot>
    requires |b| >= HEADER_BYTES && i < 31
  {
    match Located(b, start, i)
    case None => None
    case Some(off) =>
      if off < |b| then Some(Slot(i + 1, off, Min(SampleLength(b, i), |b| - off), 8, 1, false, 0, 0)) else None
  }

  function RegionFor(b: Bytes, start: nat, i: nat): Option<Region>
    requires |b| >= HEADER_BYTES && i < 31
  {
    match Located(b, start, i)
    case None => None
    case Some(off) => Some(Region(off, Min(SampleLength(b, i), |b| - off)))
  }

  function SlotsTo(b: Bytes, start: nat, i: nat): seq<Slot>
    requires |b| >= HEADER_BYTES && i <= 31
  {
    if i == 0 then []
    else SlotsTo(b, start, i - 1) + if SlotFor(b, start, i - 1).Some? then [SlotFor(b, start, i - 1).value] else []
  }

  function RegionsTo(b: Bytes, start: nat, i: nat): seq<Region>
    requires |b| >= HEADER_BYTES && i <= 31
  {
    if i == 0 then []
    else RegionsTo(b, start, i - 1) + if RegionFor(b, start, i - 1).Some? then [RegionFor(b, start, i - 1).value] else []
  }

  /** Once a sample has run past the end nothing more is located. */
  lemma {:induction false} DoneStays(b: Bytes, start: nat, i: nat, j: nat)
    requires |b| >= HEADER_BYTES && i <= j <= 31 && WalkTo(b, start, i).done
    ensures WalkTo(b, start, j).done
    ensures SlotsTo(b, start, j) == SlotsTo(b, start, i) && RegionsTo(b, start, j) == RegionsTo(b, start, i)
    decreases j - i
  {
    if i < j {
      DoneStays(b, start, i, j - 1);
    }
  }

  method ModSlots(b: Bytes) returns (out: seq<Slot>)
    requires |b| >= HEADER_BYTES
    ensures var ch := ModChannels(Tag(b));
      out == if ch == 0 then [] else SlotsTo(b, SampleStart(b, ch), 31)
  {
    hide FirstSample, ModChannels, MaxByte, SampleLength, Tag;
    var ch := ModChannels(Tag(b));
    out := [];
    if ch == 0 {
      return;
    }
    var maxPat := HighestPattern(b);
    var off: nat := FirstSample(maxPat, ch);
    ghost var start: nat := off;
    var i: nat := 0;
    while i < 31
      invariant i <= 31 && WalkTo(b, start, i) == Walk(off, false) && out == SlotsTo(b, start, i)
    {
      var n := SampleLength(b, i);
      if n > 2 {
        var length := if off + n > |b| then |b| - off else n;
        if length > 0 {
          out := out + [Slot(i + 1, off, length, 8, 1, false, 0, 0)];
        }
        if off + n > |b| {
          assert out == SlotsTo(b, start, i + 1);
          DoneStays(b, start, i + 1, 31);
          break;
        }
        off := off + n;
      }
      i := i + 1;
    }
  }

  method ExtractMod(b: Bytes) returns (out: Option<seq<Region>>)
    ensures out.Some? <==> |b| >= HEADER_BYTES && ModChannels(Tag(b)) > 0
    ensures out.Some? ==> out.value == RegionsTo(b, SampleStart(b, ModChannels(Tag(b))), 31)
  {
    hide FirstSample, ModChannels, MaxByte, SampleLength, Tag;
    if |b| < HEADER_BYTES {
      return None;
    }
    var ch := ModChannels(Tag(b));
    if ch == 0 {
      return None;
    }
    var maxPat := HighestPattern(b);
    var off: nat := FirstSample(maxPat, ch);
    ghost var start: nat := off;
    var regions: seq<Region> := [];
    var i: nat := 0;
    while i < 31
      invariant i <= 31 && WalkTo(b, start, i) == Walk(off, false) && regions == RegionsTo(b, start, i)
    {
      var n := SampleLength(b, i);
      if n > 2 {
        if off + n > |b| {
          regions := regions + [Region(off, |b| - off)];
          assert regions == RegionsTo(b, start, i + 1);
          DoneStays(b, start, i + 1, 31);
          break;
        }
        regions := regions + [Region(off, n)];
        off := off + n;
      }
      i := i + 1;
    }
    return Some(regions);
  }

  method SampleOffsets(b: Bytes, start: nat) returns (offsetOf: seq<int>)
    requires |b| >= HEADER_BYTES
    ensures |offsetOf| == 31
    ensures forall i: nat :: i < 31 ==> offsetOf[i] == OffsetOf(b, start, i)
  {
    offsetOf := seq(31, _ => -1);
    var off: nat := start;
    var i: nat := 0;
    while i < 31
      invariant i <= 31 && WalkTo(b, start, i) == Walk(off, false) && |offsetOf| == 31
      invariant forall j: nat :: j < i ==> offsetOf[j] == OffsetOf(b, start, j)
      invariant forall j: nat :: i <= j < 31 ==> offsetOf[j] == -1
    {
      var n := SampleLength(b, i);
      if n > 2 {
        offsetOf := offsetOf[i := off];
        if off + n > |b| {
          forall j: nat | i < j < 31 ensures OffsetOf(b, start, j) == -1 {
            DoneStays(b, start, i + 1, j);
          }
          break;
        }
        off := off + n;
      }
      i := i + 1;
    }
  }

  function OffsetOf(b: Bytes, start: nat, s: int): int
    requires |b| >= HEADER_BYTES
  {
    if 0 <= s < 31 && Located(b, start, s).Some? then Located(b, start, s).value else -1
  }

  // ---- Slots, regions and table offsets agree ----

  lemma {:induction false} SlotsAre(b: Bytes, start: nat, n: nat)
    requires |b| >= HEADER_BYTES && n <= 31
    ensures forall x :: x in SlotsTo(b, start, n) <==> exists i: nat :: i < n && SlotFor(b, start, i) == Some(x)
    decreases n
  {
    if n > 0 {
      hide SlotFor;
      SlotsAre(b, start, n - 1);
      forall x | exists i: nat :: i < n && SlotFor(b, start, i) == Some(x)
        ensures x in SlotsTo(b, start, n)
      {
        var i: nat :| i < n && SlotFor(b, start, i) == Some(x);
        assert i < n - 1 ==> x in SlotsTo(b, start, n - 1);
      }
    }
  }

  lemma {:induction false} RegionsAre(b: Bytes, start: nat, n: nat)
    requires |b| >= HEADER_BYTES && n <= 31
    ensures forall x :: x in RegionsTo(b, start, n) <==> exists i: nat :: i < n && RegionFor(b, start, i) == Some(x)
    decreases n
  {
    if n > 0 {
      hide RegionFor;
      RegionsAre(b, start, n - 1);
      forall x | exists i: nat :: i < n && RegionFor(b, start, i) == Some(x)
        ensures x in RegionsTo(b, start, n)
      {
        var i: nat :| i < n && RegionFor(b, start, i) == Some(x);
        assert i < n - 1 ==> x in RegionsTo(b, start, n - 1);
      }
    }
  }

  /** The v1 regions that survive the bounds check are the v2 slots' byte ranges, and the tables name the same offsets. */
  lemma LocatorsAgree(b: Bytes, start: nat)
    requires |b| >= HEADER_BYTES
    ensures forall x :: x in SlotsTo(b, start, 31) ==>
      && 0 < x.index <= 31 && OffsetOf(b, start, x.index - 1) == x.offset
      && InFile(x, |b|) && x.length > 0 && !x.compressed
      && Region(x.offset, x.length) in RegionsTo(b, start, 31)
    ensures forall r :: r in RegionsTo(b, start, 31) && InBounds(r, |b|) ==>
      exists x :: x in SlotsTo(b, start, 31) && r == Region(x.offset, x.length)
  {
    SlotsAre(b, start, 31);
    RegionsAre(b, start, 31);
    hide SlotsTo, RegionsTo, WalkTo, SampleLength;
    forall x | x in SlotsTo(b, start, 31)
      ensures 0 < x.index <= 31 && OffsetOf(b, start, x.index - 1) == x.offset
      ensures InFile(x, |b|) && x.length > 0 && !x.compressed
      ensures Region(x.offset, x.length) in RegionsTo(b, start, 31)
    {
      var i: nat :| i < 31 && SlotFor(b, start, i) == Some(x);
      assert RegionFor(b, start, i) == Some(Region(x.offset, x.length));
    }
    forall r | r in RegionsTo(b, start, 31) && InBounds(r, |b|)
      ensures exists x :: x in SlotsTo(b, start, 31) && r == Region(x.offset, x.length)
    {
      var i: nat :| i < 31 && RegionFor(b, start, i) == Some(r);
      assert SlotFor(b, start, i).Some?;
      assert SlotFor(b, start, i).value in SlotsTo(b, start, 31);
    }
  }

  lemma {:induction false} CursorMovesOn(b: Bytes, start: nat, i: nat, j: nat)
    requires |b| >= HEADER_BYTES && i < j <= 31 && Located(b, start, i).Some? && !WalkTo(b, start, j).done
    ensures Located(b, start, i).value + SampleLength(b, i) <= WalkTo(b, start, j).off
    decreases j - i
  {
    if i + 1 < j {
      CursorMovesOn(b, start, i, j - 1);
    }
  }

  /** Two samples never share an offset, nor overlap. */
  lemma SamplesAreDisjoint(b: Bytes, start: nat, i: nat, j: nat)
    requires |b| >= HEADER_BYTES && i < j < 31 && Located(b, start, i).Some? && Located(b, start, j).Some?
    ensures Located(b, start, i).value + SampleLength(b, i) <= Located(b, start, j).value
    ensures SampleLength(b, i) > 2
  {
    CursorMovesOn(b, start, i, j);
  }

  // ---- Patterns ----

  function PatternBytes(ch: nat): nat { 64 * ch * 4 }

  function CellAt(base: nat, ch: nat, row: nat, c: nat): nat { base + (row * ch + c) * 4 }

  lemma CellInside(base: nat, ch: nat, row: nat, c: nat)
    requires row < 64 && c < ch
    ensures CellAt(base, ch, row, c) + 4 <= base + PatternBytes(ch)
  {
    assert row * ch <= 63 * ch by {
      assert (63 - row) * ch >= 0;
    }
  }

  /** A cell with a note, a sample, a speed or a tempo; the others are skipped. */
  function CellEvent(b: Bytes, at: nat, row: nat, c: nat): Option<SimEvent>
    requires at + 4 <= |b|
  {
    var b0, b1, b2, b3 := b[at] as int, b[at + 1] as int, b[at + 2] as int, b[at + 3] as int;
    var sample := b0 / 16 * 16 + b2 / 16;
    var period := b0 % 16 * 256 + b1;
    var fx := b2 % 16 == 15 && b3 > 0;
    var setSpeed := if fx && b3 < 32 then b3 else 0;
    var setTempo := if fx && b3 >= 32 then b3 else 0;
    var e := SimEvent(row, c, if sample > 0 then sample - 1 else -1, period > 0, false, setSpeed, setTempo);
    if e.hasNote || e.explicitSample >= 0 || setSpeed > 0 || setTempo > 0 then Some(e) else None
  }

  /** The events of one row on the first `c` channels. */
  function RowTo(b: Bytes, base: nat, ch: nat, row: nat, c: nat): seq<SimEvent>
    requires base + PatternBytes(ch) <= |b| && row < 64 && c <= ch
  {
    if c == 0 then []
    else
      CellInside(base, ch, row, c - 1);
      var e := CellEvent(b, CellAt(base, ch, row, c - 1), row, c - 1);
      RowTo(b, base, ch, row, c - 1) + if e.Some? then [e.value] else []
  }

  /** The events of the first `rows` rows. */
  function RowsTo(b: Bytes, base: nat, ch: nat, rows: nat): seq<SimEvent>
    requires base + PatternBytes(ch) <= |b| && rows <= 64
  {
    if rows == 0 then [] else RowsTo(b, base, ch, rows - 1) + RowTo(b, base, ch, rows - 1, ch)
  }

  /** A pattern that runs past the end of the file is silent. */
  function ModPattern(b: Bytes, ch: nat, pat: nat): Pattern {
    var base := HEADER_BYTES + pat * PatternBytes(ch);
    Pattern(64, if base + PatternBytes(ch) <= |b| then RowsTo(b, base, ch, 64) else [])
  }

  method DecodePattern(b: Bytes, ch: nat, pat: nat) returns (p: Pattern)
    ensures p == ModPattern(b, ch, pat)
  {
    hide CellEvent, CellAt, PatternBytes;
    var base: nat := HEADER_BYTES + pat * PatternBytes(ch);
    var events: seq<SimEvent> := [];
    if base + PatternBytes(ch) <= |b| {
      for row := 0 to 64
        invariant events == RowsTo(b, base, ch, row)
      {
        ghost var before := events;
        for c := 0 to ch
          invariant events == before + RowTo(b, base, ch, row, c)
        {
          CellInside(base, ch, row, c);
          var e := CellEvent(b, CellAt(base, ch, row, c), row, c);
          if e.Some? {
            events := events + [e.value];
          }
        }
      }
    }
    p := Pattern(64, events);
  }

  lemma {:induction false} RowIsOk(b: Bytes, base: nat, ch: nat, row: nat, c: nat)
    requires base + PatternBytes(ch) <= |b| && row < 64 && c <= ch
    ensures forall e :: e in RowTo(b, base, ch, row, c) ==> e.row == row && e.ch < c
    decreases c
  {
    if c > 0 {
      RowIsOk(b, base, ch, row, c - 1);
    }
  }

  lemma {:induction false} RowsAreOk(b: Bytes, base: nat, ch: nat, rows: nat)
    requires base + PatternBytes(ch) <= |b| && rows <= 64
    ensures PatternOk(Pattern(rows, RowsTo(b, base, ch, rows)), ch)
    decreases rows
  {
    if rows > 0 {
      RowsAreOk(b, base, ch, rows - 1);
      RowIsOk(b, base, ch, rows - 1, ch);
      AppendRow(RowsTo(b, base, ch, rows - 1), RowTo(b, base, ch, rows - 1, ch), ch, rows - 1);
    }
  }

  lemma AppendRow(before: seq<SimEvent>, row: seq<SimEvent>, ch: nat, at: nat)
    requires PatternOk(Pattern(at, before), ch) && forall e :: e in row ==> e.row == at && e.ch < ch
    ensures PatternOk(Pattern(at + 1, before + row), ch)
  {
    forall k | 0 <= k < |before + row|
      ensures (before + row)[k].row <= at && (before + row)[k].ch < ch && (k >= |before| ==> (before + row)[k].row == at)
    {
      if k >= |before| {
        assert (before + row)[k] in row;
      }
    }
  }

  // ---- The model ----

  function OrdersTo(b: Bytes, n: nat): seq<OrderPat>
    requires |b| >= HEADER_BYTES && n <= 128
  {
    if n == 0 then [] else OrdersTo(b, n - 1) + [OrderPat(n - 1, b[952 + n - 1])]
  }

  /** The song as the simulation sees it. */
  function ModModel(b: Bytes): SimModel
    requires |b| >= HEADER_BYTES
  {
    var ch := ModChannels(Tag(b));
    SimModel(OrdersTo(b, Min(b[950] as int, 128)), 6, 125, ch,
             (pat: nat) => Some(ModPattern(b, ch, pat)), (s: int) => OffsetOf(b, SampleStart(b, ch), s))
  }

  lemma {:induction false} OrdersAscend(b: Bytes, n: nat)
    requires |b| >= HEADER_BYTES && n <= 128
    ensures |OrdersTo(b, n)| == n && forall k :: 0 <= k < n ==> OrdersTo(b, n)[k].order == k
    decreases n
  {
    if n > 0 {
      OrdersAscend(b, n - 1);
    }
  }

  /** The adapter keeps what the simulation asks of it, for every file. */
  lemma ModModelOk(b: Bytes)
    requires |b| >= HEADER_BYTES
    ensures ModelOk(ModModel(b))
  {
    hide PatternOk, ModPattern, OrdersTo, Located;
    var ch := ModChannels(Tag(b));
    forall pat: nat ensures PatternOk(ModPattern(b, ch, pat), ch) {
      ModPatternOk(b, ch, pat);
    }
    OrdersAscend(b, Min(b[950] as int, 128));
  }

  lemma ModPatternOk(b: Bytes, ch: nat, pat: nat)
    ensures PatternOk(ModPattern(b, ch, pat), ch)
  {
    hide PatternOk, PatternBytes;
    var base: nat := HEADER_BYTES + pat * PatternBytes(ch);
    if base + PatternBytes(ch) <= |b| {
      RowsAreOk(b, base, ch, 64);
    } else {
      EmptyPattern(ch);
    }
  }

  lemma EmptyPattern(ch: nat)
    ensures PatternOk(Pattern(64, []), ch)
  {
  }

  method OrderPats(b: Bytes, maxPat: nat) returns (orderPats: seq<OrderPat>)
    requires |b| >= HEADER_BYTES && forall k :: 952 <= k < 1080 ==> b[k] as int <= maxPat
    ensures orderPats == OrdersTo(b, Min(b[950] as int, 128))
  {
    var songLen := b[950] as int;
    orderPats := [];
    var i: nat := 0;
    while i < songLen && i < 128
      invariant i <= Min(songLen, 128) && orderPats == OrdersTo(b, i)
    {
      var pat := b[952 + i];
      if pat as int <= maxPat {
        orderPats := orderPats + [OrderPat(i, pat)];
      }
      i := i + 1;
    }
  }

  method ModSeekTables(b: Bytes) returns (t: Option<SeekTables>)
    ensures t.Some? <==> |b| >= HEADER_BYTES && ModChannels(Tag(b)) > 0
    ensures t.Some? ==> ModelOk(ModModel(b)) && TablesOk(ModModel(b), t.value)
  {
    hide TablesOk, ModChannels, OrdersTo, OffsetOf, ModPattern, MaxByte;
    if |b| < HEADER_BYTES {
      return None;
    }
    var ch := ModChannels(Tag(b));
    if ch == 0 {
      return None;
    }
    var maxPat := HighestPattern(b);
    var start := FirstSample(maxPat, ch);
    var offsets := SampleOffsets(b, start);
    var orderPats := OrderPats(b, maxPat);
    var m := ModModel(b);
    assert m.orderPats == orderPats && start == SampleStart(b, ch);
    assert forall s: nat | s < 31 :: m.offsetOf(s) == offsets[s];
    ModModelOk(b);
    var tables := SimulateTables(m);
    t := Some(tables);
  }

  // ---- The fence of a module file ----

  /** Streamed slots are slots of the file, each once. */
  ghost predicate StreamedFrom(streamed: seq<StreamedSlot>, slots: seq<Slot>) {
    && DistinctIndices(streamed)
    && forall j :: 0 <= j < |streamed| ==> IsSlot(streamed[j], slots)
  }

  ghost predicate IsSlot(y: StreamedSlot, slots: seq<Slot>) {
    exists x: Slot :: x in slots && x.offset == y.offset && x.index == y.index
  }

  lemma SlotOf(streamed: seq<StreamedSlot>, slots: seq<Slot>, j: nat) returns (x: Slot)
    requires StreamedFrom(streamed, slots) && j < |streamed|
    ensures x in slots && x.offset == streamed[j].offset && x.index == streamed[j].index
  {
    assert IsSlot(streamed[j], slots);
    x :| x in slots && x.offset == streamed[j].offset && x.index == streamed[j].index;
  }

  lemma SlotOffsetsDiffer(b: Bytes, start: nat, streamed: seq<StreamedSlot>, j: nat, k: nat)
    requires |b| >= HEADER_BYTES && StreamedFrom(streamed, SlotsTo(b, start, 31)) && j < k < |streamed|
    ensures streamed[j].offset != streamed[k].offset
  {
    hide SlotsTo, WalkTo, SampleLength;
    LocatorsAgree(b, start);
    var x := SlotOf(streamed, SlotsTo(b, start, 31), j);
    var y := SlotOf(streamed, SlotsTo(b, start, 31), k);
    if x.index < y.index {
      SamplesAreDisjoint(b, start, x.index - 1, y.index - 1);
    } else {
      SamplesAreDisjoint(b, start, y.index - 1, x.index - 1);
    }
  }

  /**
   * In a module file a sample that can sound within reach of an order, if its slot is streamed, is required
   * there: numbered slots, table offsets and the plan meet with no condition on the file.
   */
  lemma ModFenceHasNoGap(
    b: Bytes, t: SeekTables, streamed: seq<StreamedSlot>, p: nat, p2: nat, k: nat, ch: nat, s: nat, j: nat)
    requires |b| >= HEADER_BYTES && ModelOk(ModModel(b)) && TablesOk(ModModel(b), t)
    requires var m := ModModel(b);
      && p < |m.orderPats| && WithinReach(|m.orderPats|, p, p2) && p2 < |m.orderPats|
      && k <= |EventsAt(m, p2)| && Sounding(Played(m, p2, k), ch) == Some(s)
    requires StreamedFrom(streamed, SlotsTo(b, SampleStart(b, ModChannels(Tag(b))), 31))
    requires j < |streamed| && streamed[j].index == s + 1
    ensures s + 1 in RequiredAt(PlanOf(Some(t), streamed), ModModel(b).orderPats[p].order)
  {
    hide TablesOk, ModelOk, Sounding, Played, PlanOf, RequiredAt, SlotsTo, EventsAt, ModChannels, MaxByte, WithinReach;
    var m, start := ModModel(b), SampleStart(b, ModChannels(Tag(b)));
    LocatorsAgree(b, start);
    var x := SlotOf(streamed, SlotsTo(b, start, 31), j);
    assert m.offsetOf(s) == x.offset;
    forall i | j < i < |streamed| ensures streamed[i].offset != streamed[j].offset {
      SlotOffsetsDiffer(b, start, streamed, j, i);
    }
    SlotCoveredIffLastAtOffset(m, t, streamed, p, p2, k, ch, s, j);
  }
}
