/**
 * Impulse Tracker patterns written and read back: whatever cells a pattern holds, packed with masks and
 * last notes given or left to be remembered, the decoder returns exactly their events, row by row.
 */
module ItPacking {
  import opened Basics
  import opened SampleTransform
  import opened Formats
  import opened ItTables

  // ---- Cells as written ----

  /** A note given, the channel's last note again, or none. */
  datatype NotePart = NoNote | Given(note: byte) | Again

  datatype Command = Command(cmd: byte, param: byte)

  /** A cell of a channel. `sameMask` leaves the mask out, for a channel whose last cell had the same parts. */
  datatype Written = Written(ch: nat, note: NotePart, ins: Option<byte>, vol: Option<byte>, command: Option<Command>, sameMask: bool)

  function MaskOf(c: Written): byte {
    (if c.note.Given? then 1 else 0) + (if c.ins.Some? then 2 else 0) + (if c.vol.Some? then 4 else 0)
    + (if c.command.Some? then 8 else 0) + (if c.note.Again? then 16 else 0)
  }

  function One(x: Option<byte>): Bytes { if x.Some? then [x.value] else [] }

  function CellBytes(c: Written): (b: Bytes)
    requires c.ch < 64
    ensures |b| > 0
  {
    [c.ch + 1 + if c.sameMask then 0 else 128] + (if c.sameMask then [] else [MaskOf(c)])
    + (if c.note.Given? then [c.note.note] else []) + One(c.ins) + One(c.vol)
    + if c.command.Some? then [c.command.value.cmd, c.command.value.param] else []
  }

  /** The cells of a row and the zero that ends it. */
  function RowBytes(cells: seq<Written>): (b: Bytes)
    requires forall k :: 0 <= k < |cells| ==> cells[k].ch < 64
    ensures |b| > 0
  {
    if cells == [] then [0] else CellBytes(cells[0]) + RowBytes(cells[1..])
  }

  ghost predicate InRange(rows: seq<seq<Written>>) {
    forall r :: 0 <= r < |rows| ==> forall k :: 0 <= k < |rows[r]| ==> rows[r][k].ch < 64
  }

  function RowsBytes(rows: seq<seq<Written>>): Bytes
    requires InRange(rows)
  {
    if rows == [] then [] else RowBytes(rows[0]) + RowsBytes(rows[1..])
  }

  /** A packed pattern: length, rows, four bytes unused, and the rows. */
  function PatternBytes(rows: seq<seq<Written>>, unused: Bytes): Bytes
    requires InRange(rows) && |rows| < 65536 && |RowsBytes(rows)| < 65536 && |unused| == 4
  {
    Le16(|RowsBytes(rows)|) + Le16(|rows|) + unused + RowsBytes(rows)
  }

  // ---- What the cells say ----

  /** The parts of the channel's last cell, as a mask; 0 before any. */
  function LastMask(done: seq<Written>, ch: nat): byte {
    if done == [] then 0
    else if done[|done| - 1].ch == ch then MaskOf(done[|done| - 1]) else LastMask(done[..|done| - 1], ch)
  }

  /** The note last given on the channel, 0 before any. */
  function LastNote(done: seq<Written>, ch: nat): byte {
    if done == [] then 0
    else
      var c := done[|done| - 1];
      if c.ch == ch && c.note.Given? then c.note.note else LastNote(done[..|done| - 1], ch)
  }

  function LastIns(done: seq<Written>, ch: nat): byte {
    if done == [] then 0
    else
      var c := done[|done| - 1];
      if c.ch == ch && c.ins.Some? then c.ins.value else LastIns(done[..|done| - 1], ch)
  }

  /** The event of a cell, after the cells `done`. */
  function EventOf(done: seq<Written>, c: Written, row: nat): Ev {
    var note := match c.note case NoNote => NO_NOTE case Given(n) => n as int case Again => LastNote(done, c.ch) as int;
    var cmd: nat, param: nat :=
      if c.command.Some? then c.command.value.cmd else 0, if c.command.Some? then c.command.value.param else 0;
    Ev(row, c.ch, note, LastIns(done + [c], c.ch), cmd, param)
  }

  /** Cells with neither a note nor a command are no events. */
  function RowEvents(done: seq<Written>, cells: seq<Written>, row: nat): seq<Ev>
    decreases |cells|
  {
    if cells == [] then []
    else
      var e := EventOf(done, cells[0], row);
      (if e.note != NO_NOTE || e.cmd > 0 then [e] else []) + RowEvents(done + [cells[0]], cells[1..], row)
  }

  function EventsOf(done: seq<Written>, rows: seq<seq<Written>>, row: nat): seq<Ev>
    decreases |rows|
  {
    if rows == [] then [] else RowEvents(done, rows[0], row) + EventsOf(done + rows[0], rows[1..], row + 1)
  }

  /** The mask is left out only where the channel's last cell had the same parts. */
  ghost predicate MasksOk(done: seq<Written>, cells: seq<Written>)
    decreases |cells|
  {
    cells == [] || ((cells[0].sameMask ==> LastMask(done, cells[0].ch) == MaskOf(cells[0])) && MasksOk(done + [cells[0]], cells[1..]))
  }

  ghost predicate RowMasksOk(done: seq<Written>, rows: seq<seq<Written>>)
    decreases |rows|
  {
    rows == [] || (MasksOk(done, rows[0]) && RowMasksOk(done + rows[0], rows[1..]))
  }

  // ---- Reading a cell ----

  /** The decoder's memory of a channel is what its last cells gave. */
  ghost predicate Remembers(mem: Channels, done: seq<Written>) {
    forall ch: nat :: ch < 64 ==>
      mem.masks[ch] == LastMask(done, ch) && mem.ins[ch] == LastIns(done, ch) && mem.notes[ch] == LastNote(done, ch) as int
  }

  lemma MaskFlags(c: Written)
    ensures var m := MaskOf(c);
      && (Flag(m, 1) <==> c.note.Given?) && (Flag(m, 2) <==> c.ins.Some?) && (Flag(m, 4) <==> c.vol.Some?)
      && (Flag(m, 8) <==> c.command.Some?) && (Flag(m, 16) <==> c.note.Again?)
  {
  }

  lemma MarkerIs(c: Written)
    requires c.ch < 64
    ensures var cv := c.ch + 1 + if c.sameMask then 0 else 128;
      0 < cv < 256 && (cv - 1) % 64 == c.ch && (cv >= 128 <==> !c.sameMask)
  {
  }

  function NoteBytes(c: Written): Bytes { if c.note.Given? then [c.note.note] else [] }

  function CommandBytes(c: Written): Bytes {
    if c.command.Some? then [c.command.value.cmd, c.command.value.param] else []
  }

  function MarkBytes(c: Written): Bytes
    requires c.ch < 64
  {
    [c.ch + 1 + if c.sameMask then 0 else 128] + if c.sameMask then [] else [MaskOf(c)]
  }

  lemma CellParts(b: Bytes, p: nat, c: Written)
    requires c.ch < 64 && Holds(b, p, CellBytes(c))
    ensures var q1 := p + |MarkBytes(c)|; var q2 := q1 + |NoteBytes(c)|; var q3 := q2 + |One(c.ins)|; var q4 := q3 + |One(c.vol)|;
      && Holds(b, p, MarkBytes(c)) && Holds(b, q1, NoteBytes(c)) && Holds(b, q2, One(c.ins))
      && Holds(b, q4, CommandBytes(c)) && q4 + |CommandBytes(c)| == p + |CellBytes(c)|
  {
    var x1, x2, x3, x4, x5 := MarkBytes(c), NoteBytes(c), One(c.ins), One(c.vol), CommandBytes(c);
    assert CellBytes(c) == x1 + x2 + x3 + x4 + x5;
    hide MarkBytes, NoteBytes, One, CommandBytes, CellBytes, Holds;
    HoldsSplit(b, p, x1 + x2 + x3 + x4, x5);
    HoldsSplit(b, p, x1 + x2 + x3, x4);
    HoldsSplit(b, p, x1 + x2, x3);
    HoldsSplit(b, p, x1, x2);
  }

  lemma CellReads(b: Bytes, p: nat, c: Written)
    requires c.ch < 64 && Holds(b, p, CellBytes(c))
    ensures p < |b| && b[p] == c.ch + 1 + if c.sameMask then 0 else 128
    ensures !c.sameMask ==> ReadOrZero(b, p + 1) == MaskOf(c)
    ensures var q1 := if c.sameMask then p + 1 else p + 2;
      var q2 := if c.note.Given? then q1 + 1 else q1; var q3 := if c.ins.Some? then q2 + 1 else q2;
      var q4 := if c.vol.Some? then q3 + 1 else q3;
      && (c.note.Given? ==> NoteAt(b, q1) == c.note.note as int)
      && (c.ins.Some? ==> ReadOrZero(b, q2) == c.ins.value)
      && (c.command.Some? ==> ReadOrZero(b, q4) == c.command.value.cmd && ReadOrZero(b, q4 + 1) == c.command.value.param)
      && p + |CellBytes(c)| == if c.command.Some? then q4 + 2 else q4
  {
    hide CellBytes, MaskOf, Holds;
    CellParts(b, p, c);
    MarkReads(b, p, c);
    var q1 := p + |MarkBytes(c)|;
    if c.note.Given? {
      HoldsByte(b, q1, c.note.note);
    }
    if c.ins.Some? {
      HoldsByte(b, q1 + |NoteBytes(c)|, c.ins.value);
    }
    if c.command.Some? {
      HoldsTwo(b, q1 + |NoteBytes(c)| + |One(c.ins)| + |One(c.vol)|, c.command.value.cmd, c.command.value.param);
    }
  }

  lemma MarkReads(b: Bytes, p: nat, c: Written)
    requires c.ch < 64 && Holds(b, p, MarkBytes(c))
    ensures p < |b| && b[p] == c.ch + 1 + if c.sameMask then 0 else 128
    ensures !c.sameMask ==> ReadOrZero(b, p + 1) == MaskOf(c)
    ensures |MarkBytes(c)| == if c.sameMask then 1 else 2
  {
    hide MaskOf, Holds;
    if c.sameMask {
      assert MarkBytes(c) == [c.ch + 1];
      HoldsByte(b, p, c.ch + 1);
    } else {
      assert MarkBytes(c) == [c.ch + 129, MaskOf(c)];
      HoldsTwo(b, p, c.ch + 129, MaskOf(c));
    }
  }

  lemma LastAfter(done: seq<Written>, c: Written, ch: nat)
    ensures LastMask(done + [c], ch) == if c.ch == ch then MaskOf(c) else LastMask(done, ch)
    ensures LastIns(done + [c], ch) == if c.ch == ch && c.ins.Some? then c.ins.value else LastIns(done, ch)
    ensures LastNote(done + [c], ch) == if c.ch == ch && c.note.Given? then c.note.note else LastNote(done, ch)
  {
    assert (done + [c])[..|done|] == done;
  }

  /** Reading a cell gives its event and remembers what it gave. */
  lemma CellStep(b: Bytes, p: nat, row: nat, mem: Channels, done: seq<Written>, c: Written)
    requires c.ch < 64 && Holds(b, p, CellBytes(c)) && Remembers(mem, done)
    requires c.sameMask ==> LastMask(done, c.ch) == MaskOf(c)
    ensures p < |b| && b[p] > 0
    ensures var r := CellAt(b, p, row, mem);
      r.next == p + |CellBytes(c)| && r.ev == EventOf(done, c, row) && Remembers(r.mem, done + [c])
  {
    hide CellBytes, MaskOf, Flag, Holds, LastMask, LastIns, LastNote, ReadOrZero, NoteAt;
    CellReads(b, p, c);
    MarkerIs(c);
    MaskFlags(c);
    LastAfter(done, c, c.ch);
    var r := CellAt(b, p, row, mem);
    forall ch: nat | ch < 64
      ensures r.mem.masks[ch] == LastMask(done + [c], ch) && r.mem.ins[ch] == LastIns(done + [c], ch)
      ensures r.mem.notes[ch] == LastNote(done + [c], ch) as int
    {
      LastAfter(done, c, ch);
    }
  }

  // ---- Reading a pattern ----

  lemma {:induction false} RowRead(
    b: Bytes, end: nat, rows: nat, p: nat, row: nat, mem: Channels, done: seq<Written>, cells: seq<Written>)
    returns (mem': Channels)
    requires (forall k :: 0 <= k < |cells| ==> cells[k].ch < 64) && Holds(b, p, RowBytes(cells)) && MasksOk(done, cells)
    requires Remembers(mem, done) && p + |RowBytes(cells)| <= end <= |b| && row < rows
    ensures Remembers(mem', done + cells)
    ensures EventsFrom(b, end, rows, p, row, mem) ==
      RowEvents(done, cells, row) + EventsFrom(b, end, rows, p + |RowBytes(cells)|, row + 1, mem')
    decreases |cells|
  {
    hide CellBytes, Holds, Remembers, CellAt, EventOf, EventsFrom, RowEvents;
    if cells == [] {
      HoldsByte(b, p, 0);
      EventsStep(b, end, rows, p, row, mem);
      mem' := mem;
      RowEventsNone(done, row);
      assert done + cells == done;
    } else {
      var c, rest := cells[0], cells[1..];
      HoldsSplit(b, p, CellBytes(c), RowBytes(rest));
      CellStep(b, p, row, mem, done, c);
      EventsStep(b, end, rows, p, row, mem);
      var r := CellAt(b, p, row, mem);
      mem' := RowRead(b, end, rows, r.next, row, r.mem, done + [c], rest);
      RowEventsOne(done, cells, row, EventsFrom(b, end, rows, p + |RowBytes(cells)|, row + 1, mem'));
      assert done + [c] + rest == done + cells;
    }
  }

  lemma RowEventsNone(done: seq<Written>, row: nat)
    ensures RowEvents(done, [], row) == []
  {
  }

  lemma RowEventsOne(done: seq<Written>, cells: seq<Written>, row: nat, later: seq<Ev>)
    requires cells != []
    ensures var e := EventOf(done, cells[0], row);
      RowEvents(done, cells, row) + later ==
      (if Matters(e) then [e] else []) + (RowEvents(done + [cells[0]], cells[1..], row) + later)
  {
  }

  lemma {:induction false} RowsRead(
    b: Bytes, end: nat, rows: nat, p: nat, row: nat, mem: Channels, done: seq<Written>, todo: seq<seq<Written>>)
    requires InRange(todo) && Holds(b, p, RowsBytes(todo)) && RowMasksOk(done, todo)
    requires Remembers(mem, done) && p + |RowsBytes(todo)| == end <= |b| && row + |todo| == rows
    ensures EventsFrom(b, end, rows, p, row, mem) == EventsOf(done, todo, row)
    decreases |todo|
  {
    hide Holds, Remembers, EventsFrom, RowEvents, RowBytes, MasksOk;
    if todo == [] {
      NoEvents(b, end, rows, p, row, mem);
    } else {
      HoldsSplit(b, p, RowBytes(todo[0]), RowsBytes(todo[1..]));
      var mem' := RowRead(b, end, rows, p, row, mem, done, todo[0]);
      RowsRead(b, end, rows, p + |RowBytes(todo[0])|, row + 1, mem', done + todo[0], todo[1..]);
    }
  }

  lemma FreshRemembers()
    ensures Remembers(FreshMemory(), [])
  {
  }

  /** The decoder gives back what was packed: every cell's event, on its row, and nothing else. */
  lemma PackedPatternReads(b: Bytes, off: nat, rows: seq<seq<Written>>, unused: Bytes)
    requires InRange(rows) && |rows| < 65536 && |RowsBytes(rows)| < 65536 && |unused| == 4 && RowMasksOk([], rows)
    requires off > 0 && Holds(b, off, PatternBytes(rows, unused))
    ensures PatternAt(b, off) == Packed(|rows|, EventsOf([], rows, 0))
  {
    hide RowsBytes, Le16, Remembers, EventsFrom, EventsOf, RowMasksOk, U16le, InRange;
    var len, count, body := Le16(|RowsBytes(rows)|), Le16(|rows|), RowsBytes(rows);
    assert |len| == 2 && |count| == 2 by { Le16Length(|RowsBytes(rows)|); Le16Length(|rows|); }
    HoldsSplit(b, off, len + count + unused, body);
    HoldsSplit(b, off, len + count, unused);
    HoldsSplit(b, off, len, count);
    Le16Reads(b, off, |RowsBytes(rows)|);
    Le16Reads(b, off + 2, |rows|);
    FreshRemembers();
    RowsRead(b, off + 8 + |body|, |rows|, off + 8, 0, FreshMemory(), [], rows);
  }

  // ---- What the events do ----

  /** `Axx` sets the speed and `Txx` the tempo from 0x20 on; below, and with nothing given, they set neither. */
  lemma CommandsRead(b: Bytes, h: ItHeader, done: seq<Written>, c: Written, row: nat)
    ensures var e := SimOf(b, h, EventOf(done, c, row));
      && e.setSpeed == (match c.command case Some(Command(1, x)) => x case _ => 0)
      && e.setTempo == (match c.command case Some(Command(0x14, x)) => if x >= 0x20 then x else 0 case _ => 0)
  {
  }

  /** A cut or a release silences its channel; a note starts the sample its instrument has there, if it has one. */
  lemma NotesRead(b: Bytes, h: ItHeader, done: seq<Written>, c: Written, row: nat)
    ensures var raw, e := EventOf(done, c, row), SimOf(b, h, EventOf(done, c, row));
      && e.row == row && e.ch == c.ch
      && (e.off <==> raw.note == 254 || raw.note == 255)
      && (e.hasNote <==> 0 <= raw.note < 120 && e.explicitSample >= 0)
      && (raw.note < 0 || raw.note >= 120 ==> e.explicitSample == -1)
  {
    hide U32le;
  }
}
