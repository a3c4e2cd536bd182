/**
 * Impulse Tracker modules: the header, the packed patterns, and the planner's own walk over them, which
 * computes the tables of the common simulation.
 */
module ItTables {
  import opened Basics
  import opened SampleTransform
  import opened Formats
  import opened ItSlots
  import opened Plan
  import opened Seek

  // ---- The header ----

  datatype ItHeader = ItHeader(
    smpNum: nat, cmwt: nat, useInstruments: bool, insBase: nat, smpBase: nat, patBase: nat,
    orders: seq<byte>, speed0: nat, tempo0: nat)

  const ORDER_LIST: nat := 0xc0

  /** Order entries from here on are markers and not patterns. */
  const FIRST_MARKER: nat := 254

  function OrdNum(b: Bytes): nat { U16le(b, 0x20) }
  function InsNum(b: Bytes): nat { U16le(b, 0x22) }

  predicate HasHeader(b: Bytes) {
    && |b| >= ORDER_LIST && OrdNum(b) > 0 && SampleCount(b) > 0
    && PointerTable(b) + SampleCount(b) * 4 <= |b|
  }

  function OrOther(x: byte, other: nat): nat { if x == 0 then other else x as int }

  function HeaderOf(b: Bytes): (h: ItHeader)
    requires HasHeader(b)
  {
    ItHeader(SampleCount(b), U16le(b, 0x2a), U16le(b, 0x2c) / 4 % 2 == 1 && InsNum(b) > 0,
             ORDER_LIST + OrdNum(b), PointerTable(b), PointerTable(b) + SampleCount(b) * 4,
             b[ORDER_LIST..ORDER_LIST + OrdNum(b)], OrOther(b[0x32], 6), OrOther(b[0x33], 125))
  }

  method ReadHeader(b: Bytes) returns (h: Option<ItHeader>)
    ensures h == if HasHeader(b) then Some(HeaderOf(b)) else None
  {
    hide U16le;
    if |b| < ORDER_LIST {
      return None;
    }
    var ordNum, insNum, smpNum := U16le(b, 0x20), U16le(b, 0x22), U16le(b, 0x24);
    var insBase := ORDER_LIST + ordNum;
    var smpBase := insBase + insNum * 4;
    var patBase := smpBase + smpNum * 4;
    if patBase > |b| || smpNum == 0 || ordNum == 0 {
      return None;
    }
    var orders: seq<byte> := [];
    for i := 0 to ordNum
      invariant orders == b[ORDER_LIST..ORDER_LIST + i]
    {
      orders := orders + [b[ORDER_LIST + i]];
    }
    h := Some(ItHeader(smpNum, U16le(b, 0x2a), U16le(b, 0x2c) / 4 % 2 == 1 && insNum > 0,
                       insBase, smpBase, patBase, orders, OrOther(b[0x32], 6), OrOther(b[0x33], 125)));
  }

  // ---- Packed patterns ----

  /** A cell's event. Notes below 120 play, 254 cuts and 255 releases; -1 is no note. */
  datatype Ev = Ev(row: nat, ch: nat, note: int, ins: nat, cmd: nat, param: nat)

  const NO_NOTE := -1
  /** A note byte past the end of the file: it neither plays nor cuts. */
  const UNREAD_NOTE := 256

  function NoteAt(b: Bytes, p: nat): int { if p < |b| then b[p] as int else UNREAD_NOTE }

  /** What each of the 64 channels last had. */
  datatype Memory = Memory(masks: seq<byte>, ins: seq<byte>, notes: seq<int>)

  type Channels = m: Memory | |m.masks| == 64 && |m.ins| == 64 && |m.notes| == 64
    witness Memory(seq(64, _ => 0), seq(64, _ => 0), seq(64, _ => 0))

  function FreshMemory(): Channels {
    Memory(seq(64, _ => 0), seq(64, _ => 0), seq(64, _ => 0))
  }

  predicate Flag(mask: byte, weight: nat)
    requires weight > 0
  {
    mask as int / weight % 2 == 1
  }

  /** A cell read: where the next one starts, what the channels then remember, and its event. */
  datatype Cell = Cell(next: nat, mem: Channels, ev: Ev)

  function CellAt(b: Bytes, p: nat, row: nat, mem: Channels): (c: Cell)
    requires p < |b| && b[p] > 0
    ensures c.next > p && c.ev.row == row && c.ev.ch < 64
  {
    var ch: nat := (b[p] as int - 1) % 64;
    var ownMask := b[p] >= 128;
    var mask: byte := if ownMask then ReadOrZero(b, p + 1) else mem.masks[ch];
    var p1 := if ownMask then p + 2 else p + 1;
    var p2 := if Flag(mask, 1) then p1 + 1 else p1;
    var notes := if Flag(mask, 1) then mem.notes[ch := NoteAt(b, p1)] else mem.notes;
    var p3 := if Flag(mask, 2) then p2 + 1 else p2;
    var ins := if Flag(mask, 2) then mem.ins[ch := ReadOrZero(b, p2)] else mem.ins;
    var p4 := if Flag(mask, 4) then p3 + 1 else p3;
    var p5 := if Flag(mask, 8) then p4 + 2 else p4;
    var cmd: nat, param: nat :=
      if Flag(mask, 8) then ReadOrZero(b, p4) else 0, if Flag(mask, 8) then ReadOrZero(b, p4 + 1) else 0;
    var note := if Flag(mask, 1) || Flag(mask, 16) then notes[ch] else NO_NOTE;
    Cell(p5, Memory(mem.masks[ch := mask], ins, notes), Ev(row, ch, note, ins[ch], cmd, param))
  }

  predicate Matters(e: Ev) { e.note != NO_NOTE || e.cmd > 0 }

  /** The events from `p` on, `row` being the row it is in; a zero byte ends a row. */
  function EventsFrom(b: Bytes, end: nat, rows: nat, p: nat, row: nat, mem: Channels): seq<Ev>
    requires end <= |b|
    decreases end - p
  {
    if p >= end || row >= rows then []
    else if b[p] == 0 then EventsFrom(b, end, rows, p + 1, row + 1, mem)
    else
      var c := CellAt(b, p, row, mem);
      (if Matters(c.ev) then [c.ev] else []) + EventsFrom(b, end, rows, c.next, row, c.mem)
  }

  datatype Packed = Packed(rows: nat, events: seq<Ev>)

  function PatternAt(b: Bytes, off: nat): Packed {
    if off == 0 || off + 8 > |b| then Packed(64, [])
    else
      var rows := U16le(b, off + 2);
      Packed(rows, EventsFrom(b, Min(off + 8 + U16le(b, off), |b|), rows, off + 8, 0, FreshMemory()))
  }

  method DecodeEvents(b: Bytes, off: nat) returns (pat: Packed)
    ensures pat == PatternAt(b, off)
  {
    hide U16le, EventsFrom, CellAt;
    if off == 0 || off + 8 > |b| {
      return Packed(64, []);
    }
    var rows := U16le(b, off + 2);
    var p, end, row: nat := off + 8, Min(off + 8 + U16le(b, off), |b|), 0;
    var lastMask, lastIns, lastNote := new byte[64](_ => 0), new byte[64](_ => 0), new int[64](_ => 0);
    var events: seq<Ev> := [];
    assert Memory(lastMask[..], lastIns[..], lastNote[..]) == FreshMemory();
    while p < end && row < rows
      invariant events + EventsFrom(b, end, rows, p, row, Memory(lastMask[..], lastIns[..], lastNote[..])) ==
        EventsFrom(b, end, rows, off + 8, 0, FreshMemory())
      decreases end - p
    {
      EventsStep(b, end, rows, p, row, Memory(lastMask[..], lastIns[..], lastNote[..]));
      if b[p] == 0 {
        p, row := p + 1, row + 1;
      } else {
        var ev;
        p, ev := ReadCell(b, p, row, lastMask, lastIns, lastNote);
        if Matters(ev) {
          events := events + [ev];
        }
      }
    }
    NoEvents(b, end, rows, p, row, Memory(lastMask[..], lastIns[..], lastNote[..]));
    pat := Packed(rows, events);
  }

  method ReadCell(b: Bytes, at: nat, row: nat, lastMask: array<byte>, lastIns: array<byte>, lastNote: array<int>)
    returns (p: nat, ev: Ev)
    requires at < |b| && b[at] > 0 && lastMask.Length == lastIns.Length == lastNote.Length == 64
    requires lastMask != lastIns
    modifies lastMask, lastIns, lastNote
    ensures var c := CellAt(b, at, row, old(Memory(lastMask[..], lastIns[..], lastNote[..])));
      p == c.next && ev == c.ev && Memory(lastMask[..], lastIns[..], lastNote[..]) == c.mem
  {
    hide Flag, ReadOrZero, NoteAt;
    var cv := b[at];
    p := at + 1;
    var ch: nat := (cv as int - 1) % 64;
    var mask := lastMask[ch];
    if cv >= 128 {
      mask, p := ReadOrZero(b, p), p + 1;
      Remember(lastMask, ch, mask);
    }
    var note, cmd: nat, param: nat := NO_NOTE, 0, 0;
    if Flag(mask, 1) {
      note, p := NoteAt(b, p), p + 1;
      Remember(lastNote, ch, note);
    }
    if Flag(mask, 2) {
      Remember(lastIns, ch, ReadOrZero(b, p));
      p := p + 1;
    }
    if Flag(mask, 4) {
      p := p + 1;
    }
    if Flag(mask, 8) {
      cmd, param, p := ReadOrZero(b, p), ReadOrZero(b, p + 1), p + 2;
    }
    if Flag(mask, 16) {
      note := lastNote[ch];
    }
    assert lastIns[ch] == lastIns[..][ch] && lastNote[ch] == lastNote[..][ch];
    ev := Ev(row, ch, note, lastIns[ch], cmd, param);
  }

  method Remember<T>(last: array<T>, ch: nat, x: T)
    requires ch < last.Length
    modifies last
    ensures last[..] == old(last[..])[ch := x]
  {
    last[ch] := x;
  }

  lemma EventsStep(b: Bytes, end: nat, rows: nat, p: nat, row: nat, mem: Channels)
    requires p < end <= |b| && row < rows
    ensures b[p] == 0 ==> EventsFrom(b, end, rows, p, row, mem) == EventsFrom(b, end, rows, p + 1, row + 1, mem)
    ensures b[p] > 0 ==>
      var c := CellAt(b, p, row, mem);
      EventsFrom(b, end, rows, p, row, mem) == (if Matters(c.ev) then [c.ev] else []) + EventsFrom(b, end, rows, c.next, row, c.mem)
  {
    hide CellAt;
  }

  lemma NoEvents(b: Bytes, end: nat, rows: nat, p: nat, row: nat, mem: Channels)
    requires end <= |b| && (p >= end || row >= rows)
    ensures EventsFrom(b, end, rows, p, row, mem) == []
  {
  }

  // ---- The song ----

  /** The sample a note plays, by the instrument's keyboard map or by its number; -1 for none. */
  function SampleForNote(b: Bytes, h: ItHeader, ins: nat, note: int): (s: int)
    ensures s >= -1
  {
    if note < 0 || note > 119 || ins == 0 then -1
    else if !h.useInstruments then ins - 1
    else
      var off := U32le(b, h.insBase + (ins - 1) * 4);
      var at := off + (if h.cmwt >= 0x200 then 0x40 else 0x2e) + note * 2 + 1;
      if off == 0 || at >= |b| then -1 else b[at] as int - 1
  }

  /** Where the data of sample `i` lies, compressed or not; -1 when it has none. */
  function SampleOffset(b: Bytes, h: ItHeader, i: nat): (o: int)
    ensures o >= -1
  {
    var so := U32le(b, h.smpBase + i * 4);
    if so == 0 || so + 0x50 > |b| then -1
    else
      var ptr := U32le(b, so + 0x48);
      if Bit(b[so + 0x12], 1) && U32le(b, so + 0x30) != 0 && ptr != 0 then ptr else -1
  }

  function OffsetAt(b: Bytes, h: ItHeader, s: int): int {
    if 0 <= s < h.smpNum then SampleOffset(b, h, s) else -1
  }

  /** An event as the common simulation sees it: a note names its sample outright. */
  function SimOf(b: Bytes, h: ItHeader, e: Ev): SimEvent {
    var s := SampleForNote(b, h, e.ins, e.note);
    SimEvent(e.row, e.ch, s, s >= 0, e.note == 254 || e.note == 255,
             if e.cmd == 1 then e.param else 0, if e.cmd == 0x14 && e.param >= 0x20 then e.param else 0)
  }

  function SimEvents(b: Bytes, h: ItHeader, events: seq<Ev>): (r: seq<SimEvent>)
    ensures |r| == |events|
  {
    seq(|events|, k requires 0 <= k < |events| => SimOf(b, h, events[k]))
  }

  /** The pattern packed for number `pat`, if that is not a marker. */
  function PackedAt(b: Bytes, h: ItHeader, pat: nat): Packed {
    PatternAt(b, U32le(b, h.patBase + pat * 4))
  }

  function SimPattern(b: Bytes, h: ItHeader, pat: nat): Option<Pattern> {
    if pat >= FIRST_MARKER then None
    else Some(Pattern(PackedAt(b, h, pat).rows, SimEvents(b, h, PackedAt(b, h, pat).events)))
  }

  /** The played orders among the first `n`. */
  function OrdersTo(h: ItHeader, n: nat): seq<OrderPat>
    requires n <= |h.orders|
  {
    if n == 0 then []
    else OrdersTo(h, n - 1) + if h.orders[n - 1] as int < FIRST_MARKER then [OrderPat(n - 1, h.orders[n - 1])] else []
  }

  function SongOf(b: Bytes, h: ItHeader): SimModel {
    SimModel(OrdersTo(h, |h.orders|), h.speed0, h.tempo0, 64,
             (pat: nat) => SimPattern(b, h, pat), (s: int) => OffsetAt(b, h, s))
  }

  /** The song as the simulation sees it. */
  function ItModel(b: Bytes): SimModel
    requires HasHeader(b)
  {
    SongOf(b, HeaderOf(b))
  }

  // ---- What the adapter keeps ----

  ghost predicate RowsFrom(events: seq<Ev>, row: nat, rows: nat) {
    && (forall k :: 0 <= k < |events| ==> row <= events[k].row < rows && events[k].ch < 64)
    && forall j, k :: 0 <= j < k < |events| ==> events[j].row <= events[k].row
  }

  lemma {:induction false} EventsAreSorted(b: Bytes, end: nat, rows: nat, p: nat, row: nat, mem: Channels)
    requires end <= |b|
    ensures RowsFrom(EventsFrom(b, end, rows, p, row, mem), row, rows)
    decreases end - p
  {
    hide CellAt;
    if p < end && row < rows {
      if b[p] == 0 {
        EventsAreSorted(b, end, rows, p + 1, row + 1, mem);
      } else {
        var c := CellAt(b, p, row, mem);
        EventsAreSorted(b, end, rows, c.next, row, c.mem);
      }
    }
  }

  lemma PackedIsSorted(b: Bytes, off: nat)
    ensures var pat := PatternAt(b, off); RowsFrom(pat.events, 0, pat.rows)
  {
    hide EventsFrom;
    if off != 0 && off + 8 <= |b| {
      EventsAreSorted(b, Min(off + 8 + U16le(b, off), |b|), U16le(b, off + 2), off + 8, 0, FreshMemory());
    }
  }

  lemma PackedIsOk(b: Bytes, h: ItHeader, off: nat)
    ensures var pat := PatternAt(b, off); PatternOk(Pattern(pat.rows, SimEvents(b, h, pat.events)), 64)
  {
    hide PatternAt, SampleForNote;
    PackedIsSorted(b, off);
  }

  ghost predicate Ordered(o: seq<OrderPat>, n: nat) {
    && (forall k :: 0 <= k < |o| ==> o[k].order < n && o[k].pat < FIRST_MARKER)
    && (forall j, k :: 0 <= j < k < |o| ==> o[j].order < o[k].order)
  }

  lemma {:induction false} PlayedOrders(h: ItHeader, n: nat)
    requires n <= |h.orders|
    ensures Ordered(OrdersTo(h, n), n)
    decreases n
  {
    if n > 0 {
      PlayedOrders(h, n - 1);
      if h.orders[n - 1] as int < FIRST_MARKER {
        OrderedSnoc(OrdersTo(h, n - 1), n - 1, h.orders[n - 1]);
      } else {
        assert OrdersTo(h, n) == OrdersTo(h, n - 1);
      }
    }
  }

  lemma OrderedSnoc(o: seq<OrderPat>, n: nat, pat: nat)
    requires Ordered(o, n) && pat < FIRST_MARKER
    ensures Ordered(o + [OrderPat(n, pat)], n + 1)
  {
  }

  /** For every file with a header the adapter keeps what the simulation asks. */
  lemma SongIsOk(b: Bytes, h: ItHeader)
    requires h.speed0 > 0 && h.tempo0 > 0
    ensures ModelOk(SongOf(b, h))
  {
    hide PatternOk, PatternAt, OrdersTo, SimEvents, SampleOffset;
    forall pat: nat | pat < FIRST_MARKER
      ensures PatternOk(SimPattern(b, h, pat).value, 64)
    {
      PackedIsOk(b, h, U32le(b, h.patBase + pat * 4));
    }
    PlayedOrders(h, |h.orders|);
    var m := SongOf(b, h);
    assert m.decode == ((pat: nat) => SimPattern(b, h, pat));
    assert forall pat: nat :: m.decode(pat).Some? ==> PatternOk(m.decode(pat).value, 64);
    assert forall s: int :: s < 0 ==> m.offsetOf(s) < 0;
  }

  /** The orders before `n` come first; a pattern at `n` is next. */
  lemma {:induction false} OrdersSplit(h: ItHeader, n: nat, m: nat)
    requires n <= m <= |h.orders|
    ensures |OrdersTo(h, n)| <= |OrdersTo(h, m)| && OrdersTo(h, m)[..|OrdersTo(h, n)|] == OrdersTo(h, n)
    decreases m - n
  {
    if n < m {
      OrdersSplit(h, n, m - 1);
    }
  }

  lemma OrderPlayed(b: Bytes, h: ItHeader, n: nat)
    requires n < |h.orders|
    ensures var m, p := SongOf(b, h), |OrdersTo(h, n)|;
      if h.orders[n] as int < FIRST_MARKER then
        && p < |m.orderPats| && |OrdersTo(h, n + 1)| == p + 1 && m.orderPats[p] == OrderPat(n, h.orders[n])
        && EventsAt(m, p) == SimEvents(b, h, PackedAt(b, h, h.orders[n]).events)
        && RowsAt(m, p) == PackedAt(b, h, h.orders[n]).rows
      else |OrdersTo(h, n + 1)| == p
  {
    hide PatternAt, SimEvents;
    OrdersSplit(h, n + 1, |h.orders|);
    assert h.orders[n] as int < FIRST_MARKER ==> OrdersTo(h, |h.orders|)[..|OrdersTo(h, n + 1)|][|OrdersTo(h, n)|] == OrderPat(n, h.orders[n]);
  }

  /** The order at a position: so many are played before it. */
  lemma {:induction false} PositionOfOrder(h: ItHeader, n: nat, p: nat)
    requires n <= |h.orders| && p < |OrdersTo(h, n)|
    ensures OrdersTo(h, n)[p].order < n && |OrdersTo(h, OrdersTo(h, n)[p].order)| == p
    decreases n
  {
    if p < |OrdersTo(h, n - 1)| {
      PositionOfOrder(h, n - 1, p);
    }
  }

  // ---- The planner's own walk ----

  function RetimeIt(c: Clock, e: Ev): Clock {
    if e.cmd == 1 && e.param > 0 then c.(speed := e.param)
    else if e.cmd == 0x14 && e.param >= 0x20 then c.(tempo := e.param)
    else c
  }

  lemma RetimeAlike(b: Bytes, h: ItHeader, c: Clock, e: Ev)
    ensures RetimeIt(c, e) == Retime(c, SimOf(b, h, e))
  {
  }

  method ItTimeRow(ghost b: Bytes, ghost h: ItHeader, c0: Clock, events: seq<Ev>, ei0: nat, row: nat, ghost start: Clock)
    returns (c: Clock, ei: nat)
    requires SplitAtRow(SimEvents(b, h, events), row, ei0) && RowSorted(SimEvents(b, h, events))
    requires c0.(t := start.t) == RetimeAll(start, SimEvents(b, h, events)[..ei0])
    ensures SplitAtRow(SimEvents(b, h, events), row + 1, ei)
    ensures c.(t := start.t) == RetimeAll(start, SimEvents(b, h, events)[..ei]) && c.t == c0.t
  {
    hide SampleForNote, Retime;
    ghost var sim := SimEvents(b, h, events);
    c, ei := c0, ei0;
    while ei < |events| && events[ei].row == row
      invariant ei0 <= ei <= |events|
      invariant forall k :: 0 <= k < ei ==> sim[k].row <= row
      invariant c.(t := start.t) == RetimeAll(start, sim[..ei]) && c.t == c0.t
    {
      assert sim[..ei + 1][..ei] == sim[..ei];
      RetimeAlike(b, h, c, events[ei]);
      RetimeAlike(b, h, c.(t := start.t), events[ei]);
      c := RetimeIt(c, events[ei]);
      ei := ei + 1;
    }
    assert ei < |events| ==> sim[ei].row != row;
  }

  method ItTimePattern(ghost b: Bytes, ghost h: ItHeader, c0: Clock, pat: Packed) returns (c: Clock)
    requires c0.speed > 0 && c0.tempo > 0 && PatternOk(Pattern(pat.rows, SimEvents(b, h, pat.events)), 64)
    ensures c == PlayPattern(c0, SimEvents(b, h, pat.events), pat.rows)
  {
    hide RetimeAll, Upto, SimEvents;
    ghost var sim := SimEvents(b, h, pat.events);
    c := c0;
    var ei: nat := 0;
    RetimeNone(c0);
    for row := 0 to pat.rows
      invariant SplitAtRow(sim, row, ei)
      invariant c.(t := c0.t) == RetimeAll(c0, sim[..ei]) && c.t == TimeAfter(c0, sim, row)
    {
      c, ei := ItTimeRow(b, h, c, pat.events, ei, row, c0);
      UptoSplits(sim, row, ei);
      c := c.(t := c.t + RowSeconds(c.speed, c.tempo));
    }
    AllPlayed(sim, pat.rows, ei);
  }

  /** The clock over one played order. */
  lemma TimingAt(b: Bytes, h: ItHeader, oi: nat)
    requires h.speed0 > 0 && h.tempo0 > 0 && oi < |h.orders| && h.orders[oi] as int < FIRST_MARKER
    ensures var m, p, packed := SongOf(b, h), |OrdersTo(h, oi)|, PackedAt(b, h, h.orders[oi]);
      && p < |m.orderPats| && |OrdersTo(h, oi + 1)| == p + 1
      && TimingMap(m)[..p + 1] == TimingMap(m)[..p] + [OrderSec(oi, ClockAt(m, p).t)]
      && PatternOk(Pattern(packed.rows, SimEvents(b, h, packed.events)), 64)
      && ClockAt(m, p + 1) == PlayPattern(ClockAt(m, p), SimEvents(b, h, packed.events), packed.rows)
  {
    hide PlayPattern, PatternAt, SimEvents, OrdersTo, PatternOk, ClockAt, TimingMap, EventsAt, RowsAt;
    SongIsOk(b, h);
    hide ModelOk;
    OrderPlayed(b, h, oi);
    PackedIsOk(b, h, U32le(b, h.patBase + h.orders[oi] as int * 4));
    ClockStep(SongOf(b, h), |OrdersTo(h, oi)|);
    TimingStep(SongOf(b, h), |OrdersTo(h, oi)|);
  }

  lemma TimingNone(b: Bytes, h: ItHeader)
    requires h.speed0 > 0 && h.tempo0 > 0
    ensures OrdersTo(h, 0) == [] && ClockAt(SongOf(b, h), 0) == Clock(h.speed0, h.tempo0, 0.0)
    ensures SongOf(b, h).speed0 > 0 && SongOf(b, h).tempo0 > 0 && SongOf(b, h).orderPats == OrdersTo(h, |h.orders|)
  {
  }

  method ItTimingMap(b: Bytes, h: ItHeader) returns (r: seq<OrderSec>)
    requires h.speed0 > 0 && h.tempo0 > 0
    ensures r == TimingMap(SongOf(b, h))
  {
    hide PlayPattern, PatternAt, SimEvents, OrdersTo, PatternOk, ClockAt, TimingMap, SongOf;
    TimingNone(b, h);
    r := [];
    var c := Clock(h.speed0, h.tempo0, 0.0);
    for oi := 0 to |h.orders|
      invariant |OrdersTo(h, oi)| <= |SongOf(b, h).orderPats|
      invariant c == ClockAt(SongOf(b, h), |OrdersTo(h, oi)|)
      invariant r == TimingMap(SongOf(b, h))[..|OrdersTo(h, oi)|]
    {
      var pat: nat := h.orders[oi];
      if pat >= FIRST_MARKER {
        NextIsMarker(h, oi);
        continue;
      }
      TimingAt(b, h, oi);
      r := r + [OrderSec(oi, c.t)];
      var packed := DecodeEvents(b, U32le(b, h.patBase + pat * 4));
      c := ItTimePattern(b, h, c, packed);
    }
  }

  lemma NextIsMarker(h: ItHeader, n: nat)
    requires n < |h.orders| && h.orders[n] as int >= FIRST_MARKER
    ensures OrdersTo(h, n + 1) == OrdersTo(h, n)
  {
  }

  lemma NoOrders(h: ItHeader)
    ensures OrdersTo(h, 0) == []
  {
  }

  // ---- Held notes ----

  /** The walk keeps only the sample held on each channel: an instrument number alone names nothing. */
  function HeldIt(b: Bytes, h: ItHeader, e: Ev, held: seq<int>): (r: seq<int>)
    requires e.ch < |held|
    ensures |r| == |held|
  {
    if e.note == 254 || e.note == 255 then held[e.ch := -1]
    else
      var s := SampleForNote(b, h, e.ins, e.note);
      if e.note < 120 && s >= 0 then held[e.ch := s] else held
  }

  lemma HeldAlike(b: Bytes, h: ItHeader, e: Ev, v: Voices)
    requires e.ch < |v.held| == |v.latch|
    ensures ApplySim(SimOf(b, h, e), v).held == HeldIt(b, h, e, v.held)
  {
    hide U32le;
  }

  method ItWalkRow(b: Bytes, h: ItHeader, held0: seq<int>, events: seq<Ev>, ei0: nat, row: nat, ghost start: Voices)
    returns (held: seq<int>, ei: nat)
    requires InChannels(SimEvents(b, h, events), 64) && VoicesOk(start, 64)
    requires SplitAtRow(SimEvents(b, h, events), row, ei0) && RowSorted(SimEvents(b, h, events))
    requires held0 == ApplyAll(SimEvents(b, h, events)[..ei0], start, 64).held
    ensures SplitAtRow(SimEvents(b, h, events), row + 1, ei)
    ensures held == ApplyAll(SimEvents(b, h, events)[..ei], start, 64).held
  {
    hide SampleForNote, ApplySim, HeldIt;
    ghost var sim := SimEvents(b, h, events);
    held, ei := held0, ei0;
    while ei < |events| && events[ei].row == row
      invariant ei0 <= ei <= |events|
      invariant forall k :: 0 <= k < ei ==> sim[k].row <= row
      invariant held == ApplyAll(sim[..ei], start, 64).held
    {
      assert sim[..ei + 1][..ei] == sim[..ei];
      assert events[ei].ch == sim[ei].ch;
      HeldAlike(b, h, events[ei], ApplyAll(sim[..ei], start, 64));
      held := HeldIt(b, h, events[ei], held);
      ei := ei + 1;
    }
    assert ei < |events| ==> sim[ei].row != row;
  }

  method ItWalkPattern(b: Bytes, h: ItHeader, held0: seq<int>, pat: Packed, ghost v0: Voices) returns (held: seq<int>)
    requires VoicesOk(v0, 64) && held0 == v0.held
    requires PatternOk(Pattern(pat.rows, SimEvents(b, h, pat.events)), 64)
    ensures var sim := SimEvents(b, h, pat.events); InChannels(sim, 64) && held == ApplyAll(sim, v0, 64).held
  {
    hide SimEvents;
    ghost var sim := SimEvents(b, h, pat.events);
    held := held0;
    var ei: nat := 0;
    for row := 0 to pat.rows
      invariant SplitAtRow(sim, row, ei)
      invariant held == ApplyAll(sim[..ei], v0, 64).held
    {
      held, ei := ItWalkRow(b, h, held, pat.events, ei, row, v0);
    }
    AllPlayed(sim, pat.rows, ei);
  }

  /** The samples held on entering order `n`. */
  method ItHeldAt(b: Bytes, h: ItHeader, n: nat) returns (held: seq<int>)
    requires h.speed0 > 0 && h.tempo0 > 0 && n <= |h.orders|
    ensures ModelOk(SongOf(b, h)) && |OrdersTo(h, n)| <= |SongOf(b, h).orderPats|
    ensures held == VoicesAt(SongOf(b, h), |OrdersTo(h, n)|).held
  {
    hide ApplyAll, PatternAt, SimEvents, OrdersTo, PatternOk, VoicesAt, InChannels, EventsAt;
    SongIsOk(b, h);
    NoOrders(h);
    ghost var m := SongOf(b, h);
    hide ModelOk;
    held := seq(64, _ => -1);
    NothingPlayed(m);
    for oi := 0 to n
      invariant |OrdersTo(h, oi)| <= |m.orderPats|
      invariant held == VoicesAt(m, |OrdersTo(h, oi)|).held
    {
      var pat: nat := h.orders[oi];
      OrderPlayed(b, h, oi);
      if pat >= FIRST_MARKER {
        continue;
      }
      VoicesStep(m, |OrdersTo(h, oi)|);
      var packed := DecodeEvents(b, U32le(b, h.patBase + pat * 4));
      PackedIsOk(b, h, U32le(b, h.patBase + pat * 4));
      held := ItWalkPattern(b, h, held, packed, VoicesAt(m, |OrdersTo(h, oi)|));
    }
  }

  // ---- Triggers ----

  lemma TriggeredOutright(b: Bytes, h: ItHeader, e: Ev, latch: seq<int>)
    requires e.ch < |latch|
    ensures var o := OffsetAt(b, h, SampleForNote(b, h, e.ins, e.note));
      if SimOf(b, h, e).hasNote then Triggered(SimOf(b, h, e), latch) == SampleForNote(b, h, e.ins, e.note) else o < 0
  {
    hide U32le;
  }

  /** Every sample the events start, whatever the channels named before. */
  method ItScan(b: Bytes, h: ItHeader, events: seq<Ev>, resident0: set<int>, ghost latch: seq<int>) returns (resident: set<int>)
    requires InChannels(SimEvents(b, h, events), |latch|)
    ensures resident == resident0 + TriggeredOffsets(SongOf(b, h), SimEvents(b, h, events), latch)
  {
    hide SampleForNote, SampleOffset, OrdersTo, SimPattern, SimOf, Triggered, LatchOf;
    ghost var m, sim := SongOf(b, h), SimEvents(b, h, events);
    resident := resident0;
    for k := 0 to |events|
      invariant InChannels(sim[..k], |latch|)
      invariant resident == resident0 + TriggeredOffsets(m, sim[..k], latch)
    {
      var e := events[k];
      assert sim[..k + 1][..k] == sim[..k] && sim[..k + 1][k] == SimOf(b, h, e);
      assert SimOf(b, h, e).ch == e.ch by { SimChannel(b, h, e); }
      TriggeredOutright(b, h, e, LatchAll(sim[..k], latch));
      if e.note < 120 {
        var o := OffsetAt(b, h, SampleForNote(b, h, e.ins, e.note));
        if o >= 0 {
          resident := resident + {o};
        }
      } else {
        HighNote(b, h, e);
      }
    }
    assert sim[..|events|] == sim;
  }

  lemma SimChannel(b: Bytes, h: ItHeader, e: Ev)
    ensures SimOf(b, h, e).ch == e.ch
  {
  }

  lemma HighNote(b: Bytes, h: ItHeader, e: Ev)
    requires e.note >= 120
    ensures !SimOf(b, h, e).hasNote
  {
  }

  /** Everything started in the orders [lo, hi). */
  method ItForward(b: Bytes, h: ItHeader, lo: nat, hi: nat, resident0: set<int>, ghost latch: seq<int>) returns (resident: set<int>)
    requires h.speed0 > 0 && h.tempo0 > 0 && lo <= hi <= |h.orders| && |latch| == 64
    ensures var m, p, q := SongOf(b, h), |OrdersTo(h, lo)|, |OrdersTo(h, hi)|;
      && p <= q <= |m.orderPats| && InChannels(SpanEvents(m, p, q), 64)
      && resident == resident0 + TriggeredOffsets(m, SpanEvents(m, p, q), latch)
  {
    hide PatternAt, SimEvents, OrdersTo, PatternOk, EventsAt, TriggeredOffsets, LatchAll, InChannels;
    SongIsOk(b, h);
    OrdersSplit(h, lo, |h.orders|);
    ghost var m, p := SongOf(b, h), |OrdersTo(h, lo)|;
    hide ModelOk;
    resident := resident0;
    NothingTriggered(m, latch);
    SpanInChannels(m, p, p);
    for oi := lo to hi
      invariant p <= |OrdersTo(h, oi)| <= |m.orderPats|
      invariant InChannels(SpanEvents(m, p, |OrdersTo(h, oi)|), 64)
      invariant resident == resident0 + TriggeredOffsets(m, SpanEvents(m, p, |OrdersTo(h, oi)|), latch)
    {
      var pat: nat := h.orders[oi];
      OrderPlayed(b, h, oi);
      if pat >= FIRST_MARKER {
        continue;
      }
      ghost var q := |OrdersTo(h, oi)|;
      EventsInChannels(m, q);
      TriggerAppend(m, SpanEvents(m, p, q), EventsAt(m, q), latch);
      var packed := DecodeEvents(b, U32le(b, h.patBase + pat * 4));
      resident := ItScan(b, h, packed.events, resident, LatchAll(SpanEvents(m, p, q), latch));
    }
  }

  // ---- The tables ----

  lemma OrderAtPosition(b: Bytes, h: ItHeader, p: nat)
    requires h.speed0 > 0 && h.tempo0 > 0 && p < |SongOf(b, h).orderPats|
    ensures var n := SongOf(b, h).orderPats[p].order; n < |h.orders| && |OrdersTo(h, n)| == p
    ensures TimingMap(SongOf(b, h))[p].order == SongOf(b, h).orderPats[p].order
  {
    hide OrdersTo, ClockAt;
    PositionOfOrder(h, |h.orders|, p);
  }

  lemma HeldAlone(m: SimModel, v: Voices, latch: seq<int>)
    ensures HeldOffsets(m, Voices(v.held, latch)) == HeldOffsets(m, v)
  {
  }

  lemma SpanIs(m: SimModel, vi: nat, next: nat)
    requires ModelOk(m) && vi < |m.orderPats| && next == Min(vi + Stride(|m.orderPats|), |m.orderPats|) && m.numChannels == 64
    ensures vi <= next && InChannels(SpanEvents(m, vi, next), 64)
    ensures ResidentAt(m, vi) == HeldOffsets(m, VoicesAt(m, vi)) + TriggeredOffsets(m, SpanEvents(m, vi, next), VoicesAt(m, vi).latch)
  {
    hide VoicesAt, TriggeredOffsets, HeldOffsets, ModelOk, SpanEvents;
    SpanInChannels(m, vi, next);
  }

  /** A checkpoint: held on entry, or started before the order of the next one. */
  method ItCheckpointAt(b: Bytes, h: ItHeader, orderSeconds: seq<OrderSec>, vi: nat) returns (c: SeekCheckpoint)
    requires h.speed0 > 0 && h.tempo0 > 0 && orderSeconds == TimingMap(SongOf(b, h)) && vi < |orderSeconds|
    ensures ModelOk(SongOf(b, h)) && c.order == SongOf(b, h).orderPats[vi].order
    ensures Lists(c.residentOffsets, ResidentAt(SongOf(b, h), vi))
  {
    hide SongOf, OrdersTo, TimingMap, VoicesAt, TriggeredOffsets, HeldOffsets, Lists, SpanEvents, ResidentAt, ModelOk, Stride;
    ghost var m := SongOf(b, h);
    SongIs(b, h);
    SongIsOk(b, h);
    OrderAtPosition(b, h, vi);
    var n := orderSeconds[vi].order;
    var held := ItHeldAt(b, h, n);
    HeldAlone(m, VoicesAt(m, vi), []);
    var resident := CollectHeld(SongOf(b, h), Voices(held, []));
    var next := vi + Stride(|orderSeconds|);
    var nextOrder := |h.orders|;
    if next < |orderSeconds| {
      OrderAtPosition(b, h, next);
      nextOrder := orderSeconds[next].order;
      OrderBefore(b, h, vi, next);
    }
    SpanIs(m, vi, Min(next, |m.orderPats|));
    resident := ItForward(b, h, n, nextOrder, resident, VoicesAt(m, vi).latch);
    var offsets := SortedOffsets(resident);
    c := SeekCheckpoint(n, offsets);
  }

  lemma SongIs(b: Bytes, h: ItHeader)
    ensures var m := SongOf(b, h);
      m.numChannels == 64 && m.speed0 == h.speed0 && m.tempo0 == h.tempo0 && m.orderPats == OrdersTo(h, |h.orders|)
  {
  }

  lemma OrderBefore(b: Bytes, h: ItHeader, p: nat, q: nat)
    requires p < q < |SongOf(b, h).orderPats|
    ensures SongOf(b, h).orderPats[p].order < SongOf(b, h).orderPats[q].order
  {
    hide OrdersTo;
    PlayedOrders(h, |h.orders|);
  }

  method ItSegment0(b: Bytes, h: ItHeader, orderSeconds: seq<OrderSec>) returns (s: seq<int>)
    requires h.speed0 > 0 && h.tempo0 > 0 && orderSeconds == TimingMap(SongOf(b, h))
    ensures ModelOk(SongOf(b, h)) && Lists(s, Segment0(SongOf(b, h)))
  {
    hide SongOf, OrdersTo, TimingMap, TriggeredOffsets, Lists, ModelOk, SimEvents, PatternAt, EventsAt;
    ghost var m := SongOf(b, h);
    SongIs(b, h);
    SongIsOk(b, h);
    var segment0: set<int> := {};
    if orderSeconds != [] {
      OrderAtPosition(b, h, 0);
      var n := orderSeconds[0].order;
      OrderPlayed(b, h, n);
      PlayedPattern(b, h, 0);
      EventsInChannels(m, 0);
      var packed := DecodeEvents(b, U32le(b, h.patBase + h.orders[n] as int * 4));
      segment0 := ItScan(b, h, packed.events, {}, Silent(64).latch);
    }
    assert segment0 == Segment0(m);
    s := SortedOffsets(segment0);
  }

  lemma PlayedPattern(b: Bytes, h: ItHeader, p: nat)
    requires p < |SongOf(b, h).orderPats|
    ensures var n := SongOf(b, h).orderPats[p].order; n < |h.orders| && h.orders[n] as int < FIRST_MARKER
  {
    hide OrdersTo;
    PlayedOrders(h, |h.orders|);
    PositionOfOrder(h, |h.orders|, p);
    PlayedIsPattern(h, |h.orders|, p);
  }

  lemma {:induction false} PlayedIsPattern(h: ItHeader, n: nat, p: nat)
    requires n <= |h.orders| && p < |OrdersTo(h, n)|
    ensures OrdersTo(h, n)[p].order < n && h.orders[OrdersTo(h, n)[p].order] as int < FIRST_MARKER
    decreases n
  {
    if p < |OrdersTo(h, n - 1)| {
      PlayedIsPattern(h, n - 1, p);
    }
  }

  /** `computeItTables`: the common simulation's tables of the song, by a walk of its own. */
  method ItSeekTables(b: Bytes) returns (t: Option<SeekTables>)
    ensures t.Some? <==> HasHeader(b)
    ensures t.Some? ==> ModelOk(ItModel(b)) && TablesOk(ItModel(b), t.value)
  {
    hide TimingMap, ResidentAt, Lists, Segment0, SongOf, OrOther, ModelOk;
    var h := ReadHeader(b);
    if h.None? {
      return None;
    }
    SpeedsAreSet(b);
    ghost var m := SongOf(b, h.value);
    SongIs(b, h.value);
    SongIsOk(b, h.value);
    var orderSeconds := ItTimingMap(b, h.value);
    var stride := Stride(|orderSeconds|);
    var checkpoints: seq<SeekCheckpoint> := [];
    var vi: nat := 0;
    while vi < |orderSeconds|
      invariant vi == Position(|checkpoints|, stride)
      invariant forall k :: 0 <= k < |checkpoints| ==> CheckpointOk(m, k, checkpoints[k])
      decreases |orderSeconds| - vi
    {
      var c := ItCheckpointAt(b, h.value, orderSeconds, vi);
      checkpoints := checkpoints + [c];
      vi := vi + stride;
    }
    var segment0 := ItSegment0(b, h.value, orderSeconds);
    t := Some(SeekTables(orderSeconds, segment0, checkpoints));
  }

  lemma SpeedsAreSet(b: Bytes)
    requires HasHeader(b)
    ensures HeaderOf(b).speed0 > 0 && HeaderOf(b).tempo0 > 0
  {
  }

  // ---- Tables and locator ----

  /** The tables put sample `i` where the locator puts slot `i + 1`. */
  lemma ItLocatorsAgree(b: Bytes, i: nat)
    requires HasHeader(b) && i < SampleCount(b) && ItSlot(b, i).Some?
    ensures ItSlot(b, i).value.index == i + 1 && ItModel(b).offsetOf(i) == ItSlot(b, i).value.offset
  {
    hide U32le, Bit, OrdersTo, ChannelsEnd;
  }
}
