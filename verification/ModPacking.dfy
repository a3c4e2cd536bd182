/** ProTracker patterns written and read back: sample, period, effect and parameter in four bytes a cell. */
module ModPacking {
  import opened Basics
  import opened Formats
  import opened Seek
  import opened ModTables

  /** A sample number, 0 for none; a period, 0 for no note; an effect with its parameter. */
  datatype ModCell = ModCell(sample: nat, period: nat, effect: nat, param: nat)

  predicate CellOk(c: ModCell) { c.sample < 256 && c.period < 4096 && c.effect < 16 && c.param < 256 }

  /** The high nibble of the sample with the high four bits of the period, then the rest of each. */
  function CellBytes(c: ModCell): (b: Bytes)
    requires CellOk(c)
    ensures |b| == 4
  {
    [c.sample / 16 * 16 + c.period / 256, c.period % 256, c.sample % 16 * 16 + c.effect, c.param]
  }

  function RowBytes(cells: seq<ModCell>): (b: Bytes)
    requires forall k :: 0 <= k < |cells| ==> CellOk(cells[k])
    ensures |b| == 4 * |cells|
  {
    if cells == [] then [] else RowBytes(cells[..|cells| - 1]) + CellBytes(cells[|cells| - 1])
  }

  ghost predicate RowsOk(rows: seq<seq<ModCell>>, ch: nat) {
    forall r :: 0 <= r < |rows| ==> |rows[r]| == ch && forall k :: 0 <= k < |rows[r]| ==> CellOk(rows[r][k])
  }

  function RowsBytes(rows: seq<seq<ModCell>>, ch: nat): Bytes
    requires RowsOk(rows, ch)
  {
    if rows == [] then [] else RowsBytes(rows[..|rows| - 1], ch) + RowBytes(rows[|rows| - 1])
  }

  /** What a cell says: effect 15 sets the speed below 32 and the tempo from 32 on; a cell that says nothing is no event. */
  function EventOf(c: ModCell, row: nat, ch: nat): Option<SimEvent> {
    if c.sample == 0 && c.period == 0 && (c.effect != 15 || c.param == 0) then None
    else
      Some(SimEvent(row, ch, c.sample - 1, c.period > 0, false,
                    if c.effect == 15 && c.param < 32 then c.param else 0,
                    if c.effect == 15 && c.param >= 32 then c.param else 0))
  }

  function RowEvents(cells: seq<ModCell>, row: nat): seq<SimEvent> {
    if cells == [] then []
    else
      var e := EventOf(cells[|cells| - 1], row, |cells| - 1);
      RowEvents(cells[..|cells| - 1], row) + if e.Some? then [e.value] else []
  }

  function RowsEvents(rows: seq<seq<ModCell>>): seq<SimEvent> {
    if rows == [] then [] else RowsEvents(rows[..|rows| - 1]) + RowEvents(rows[|rows| - 1], |rows| - 1)
  }

  lemma CellReads(b: Bytes, at: nat, c: ModCell, row: nat, ch: nat)
    requires CellOk(c) && Holds(b, at, CellBytes(c))
    ensures at + 4 <= |b| && CellEvent(b, at, row, ch) == EventOf(c, row, ch)
  {
    var x := CellBytes(c);
    assert b[at] == x[0] && b[at + 1] == x[1] && b[at + 2] == x[2] && b[at + 3] == x[3];
    NibblesRead(c);
  }

  lemma NibblesRead(c: ModCell)
    requires CellOk(c)
    ensures var x := CellBytes(c);
      && x[0] as int / 16 * 16 + x[2] as int / 16 == c.sample && x[0] as int % 16 * 256 + x[1] as int == c.period
      && x[2] as int % 16 == c.effect && x[3] as int == c.param
  {
  }

  lemma {:induction false} RowReads(b: Bytes, base: nat, ch: nat, row: nat, at: nat, cells: seq<ModCell>)
    requires base + PatternBytes(ch) <= |b| && row < 64 && |cells| <= ch && at == base + row * ch * 4
    requires (forall k :: 0 <= k < |cells| ==> CellOk(cells[k])) && Holds(b, at, RowBytes(cells))
    ensures RowTo(b, base, ch, row, |cells|) == RowEvents(cells, row)
    decreases |cells|
  {
    hide CellBytes, CellEvent, Holds, EventOf, PatternBytes;
    if cells != [] {
      var init, c := cells[..|cells| - 1], cells[|cells| - 1];
      HoldsSplit(b, at, RowBytes(init), CellBytes(c));
      RowReads(b, base, ch, row, at, init);
      CellInside(base, ch, row, |init|);
      assert CellAt(base, ch, row, |init|) == at + 4 * |init|;
      CellReads(b, at + 4 * |init|, c, row, |init|);
    }
  }

  lemma {:induction false} RowsLength(rows: seq<seq<ModCell>>, ch: nat)
    requires RowsOk(rows, ch)
    ensures |RowsBytes(rows, ch)| == |rows| * ch * 4
    decreases |rows|
  {
    hide RowBytes;
    if rows != [] {
      RowsLength(rows[..|rows| - 1], ch);
      assert |rows| * ch * 4 == (|rows| - 1) * ch * 4 + ch * 4;
    }
  }

  lemma {:induction false} RowsRead(b: Bytes, base: nat, ch: nat, rows: seq<seq<ModCell>>)
    requires base + PatternBytes(ch) <= |b| && |rows| <= 64 && RowsOk(rows, ch) && Holds(b, base, RowsBytes(rows, ch))
    ensures RowsTo(b, base, ch, |rows|) == RowsEvents(rows)
    decreases |rows|
  {
    hide RowBytes, Holds, RowTo, RowEvents, PatternBytes;
    if rows != [] {
      var init, last := rows[..|rows| - 1], rows[|rows| - 1];
      RowsLength(init, ch);
      HoldsSplit(b, base, RowsBytes(init, ch), RowBytes(last));
      RowsRead(b, base, ch, init);
      RowReads(b, base, ch, |init|, base + |init| * ch * 4, last);
    }
  }

  /** Sixty-four packed rows at their place in the file are read back, cell by cell. */
  lemma PackedPatternReads(b: Bytes, ch: nat, pat: nat, rows: seq<seq<ModCell>>)
    requires |rows| == 64 && RowsOk(rows, ch)
    requires Holds(b, HEADER_BYTES + pat * (64 * ch * 4), RowsBytes(rows, ch))
    ensures ModPattern(b, ch, pat) == Pattern(64, RowsEvents(rows))
  {
    hide RowsBytes, RowsTo, RowsEvents;
    RowsLength(rows, ch);
    RowsRead(b, HEADER_BYTES + pat * PatternBytes(ch), ch, rows);
  }

  // ---- Where the samples lie ----

  /** The bytes of the samples before `i`; lengths up to two bytes are no samples. */
  function BytesBefore(b: Bytes, i: nat): nat
    requires |b| >= HEADER_BYTES && i <= 31
  {
    if i == 0 then 0 else BytesBefore(b, i - 1) + if SampleLength(b, i - 1) > 2 then SampleLength(b, i - 1) else 0
  }

  /** Samples follow one another from the first on, for as long as the ones before fit the file. */
  lemma {:induction false} SampleLies(b: Bytes, start: nat, i: nat)
    requires |b| >= HEADER_BYTES && i < 31
    ensures Located(b, start, i) ==
      if SampleLength(b, i) > 2 && (BytesBefore(b, i) == 0 || start + BytesBefore(b, i) <= |b|)
      then Some(start + BytesBefore(b, i)) else None
  {
    hide SampleLength;
    WalkIs(b, start, i);
  }

  lemma {:induction false} WalkIs(b: Bytes, start: nat, i: nat)
    requires |b| >= HEADER_BYTES && i <= 31
    ensures var w := WalkTo(b, start, i);
      if BytesBefore(b, i) == 0 || start + BytesBefore(b, i) <= |b|
      then w == Walk(start + BytesBefore(b, i), false) else w.done
    decreases i
  {
    hide SampleLength;
    if i > 0 {
      WalkIs(b, start, i - 1);
    }
  }

  /** A sample's length is given in words, most significant byte first, in the header of the song. */
  lemma LengthReads(b: Bytes, i: nat, words: nat)
    requires |b| >= HEADER_BYTES && i < 31 && words < 65536
    requires Holds(b, 20 + 30 * i + 22, [words / 256, words % 256])
    ensures SampleLength(b, i) == 2 * words
  {
    hide Holds;
    HoldsTwo(b, 20 + 30 * i + 22, words / 256, words % 256);
  }

  /** Every order of the list is played, with speed 6 and tempo 125 at the start. */
  lemma SongReads(b: Bytes, k: nat)
    requires |b| >= HEADER_BYTES
    ensures ModModel(b).speed0 == 6 && ModModel(b).tempo0 == 125
    ensures |ModModel(b).orderPats| == Min(b[950] as int, 128)
    ensures k < Min(b[950] as int, 128) ==> ModModel(b).orderPats[k] == OrderPat(k, b[952 + k])
  {
    hide ModChannels, MaxByte;
    OrdersAscend(b, Min(b[950] as int, 128));
    if k < Min(b[950] as int, 128) {
      OrderReads(b, Min(b[950] as int, 128), k);
    }
  }

  lemma {:induction false} OrderReads(b: Bytes, n: nat, k: nat)
    requires |b| >= HEADER_BYTES && k < n <= 128
    ensures |OrdersTo(b, n)| == n && OrdersTo(b, n)[k] == OrderPat(k, b[952 + k])
    decreases n
  {
    OrdersAscend(b, n);
    OrdersAscend(b, n - 1);
    if k < n - 1 {
      OrderReads(b, n - 1, k);
    }
  }

  function DigitChar(d: nat): (c: char)
    requires d < 10
    ensures IsDigit(c) && Digit(c) == d
  {
    ('0' as int + d) as char
  }

  /** Channel counts the tag spells out in digits. */
  lemma TagOneDigit(d: nat)
    requires d < 10
    ensures ModChannels([DigitChar(d), 'C', 'H', 'N']) == d && ModChannels(['T', 'D', 'Z', DigitChar(d)]) == d
  {
    var t, u := [DigitChar(d), 'C', 'H', 'N'], ['T', 'D', 'Z', DigitChar(d)];
    assert t[1..] == "CHN" && u[..3] == "TDZ";
    assert t[0] == DigitChar(d) && u[3] == DigitChar(d) && u[0] == 'T';
    assert u[1..] != "CHN" && !IsDigit('T');
  }

  lemma TagTwoDigits(d: nat, e: nat)
    requires d < 10 && e < 10
    ensures ModChannels([DigitChar(d), DigitChar(e), 'C', 'H']) == 10 * d + e
    ensures ModChannels([DigitChar(d), DigitChar(e), 'C', 'N']) == 10 * d + e
  {
    var t, u := [DigitChar(d), DigitChar(e), 'C', 'H'], [DigitChar(d), DigitChar(e), 'C', 'N'];
    assert t[2..] == "CH" && u[2..] == "CN";
    assert t[1..][2] == 'H' && u[1..][1] == 'C';
    assert t[0] == DigitChar(d) && t[1] == DigitChar(e) && u[0] == DigitChar(d) && u[1] == DigitChar(e);
  }
}
