/**
 * The bake-time song simulation: timing map, held-note walk, forward span and stride. `Simulate`
 * and its helpers are the program's loops; `TablesOf` is what they compute.
 */
module Seek {
  import opened Basics
  import opened Sequences
  import opened Sorting
  import opened Plan

  /** One normalised pattern cell. `explicitSample` -1, `setSpeed` 0 and `setTempo` 0 mean none. */
  datatype SimEvent = SimEvent(
    row: nat, ch: nat, explicitSample: int, hasNote: bool, off: bool, setSpeed: nat, setTempo: nat)

  datatype Pattern = Pattern(rows: nat, events: seq<SimEvent>)

  datatype OrderPat = OrderPat(order: nat, pat: nat)

  /** What a format adapter supplies. */
  datatype SimModel = SimModel(
    orderPats: seq<OrderPat>, speed0: nat, tempo0: nat, numChannels: nat,
    decode: nat -> Option<Pattern>, offsetOf: int -> int)

  const MAX_CHECKPOINTS: nat := 512

  /** What every adapter guarantees: row-sorted events inside the pattern, and no offset for no sample. */
  ghost predicate PatternOk(p: Pattern, numChannels: nat) {
    && (forall k :: 0 <= k < |p.events| ==> p.events[k].row < p.rows && p.events[k].ch < numChannels)
    && (forall j, k :: 0 <= j < k < |p.events| ==> p.events[j].row <= p.events[k].row)
  }

  ghost predicate ModelOk(m: SimModel) {
    && m.speed0 > 0 && m.tempo0 > 0
    && (forall pat :: m.decode(pat).Some? ==> PatternOk(m.decode(pat).value, m.numChannels))
    && (forall s: int :: s < 0 ==> m.offsetOf(s) < 0)
    && (forall j, k :: 0 <= j < k < |m.orderPats| ==> m.orderPats[j].order < m.orderPats[k].order)
  }

  function EventsAt(m: SimModel, p: nat): seq<SimEvent>
    requires p < |m.orderPats|
  {
    var ev := m.decode(m.orderPats[p].pat);
    if ev.Some? then ev.value.events else []
  }

  function RowsAt(m: SimModel, p: nat): nat
    requires p < |m.orderPats|
  {
    var ev := m.decode(m.orderPats[p].pat);
    if ev.Some? then ev.value.rows else 64
  }

  // ---- The clock ----

  datatype Clock = Clock(speed: nat, tempo: nat, t: real)

  function RowSeconds(speed: nat, tempo: nat): real
    requires tempo > 0
  {
    speed as real * 2.5 / tempo as real
  }

  function Retime(c: Clock, e: SimEvent): (c': Clock)
    ensures c.speed > 0 && c.tempo > 0 ==> c'.speed > 0 && c'.tempo > 0
    ensures c'.t == c.t
  {
    Clock(if e.setSpeed > 0 then e.setSpeed else c.speed, if e.setTempo > 0 then e.setTempo else c.tempo, c.t)
  }

  function RetimeAll(c: Clock, events: seq<SimEvent>): (c': Clock)
    ensures c.speed > 0 && c.tempo > 0 ==> c'.speed > 0 && c'.tempo > 0
    ensures c'.t == c.t
    decreases |events|
  {
    if events == [] then c else Retime(RetimeAll(c, events[..|events| - 1]), events[|events| - 1])
  }

  /** The leading events on rows up to `row`. */
  function Upto(events: seq<SimEvent>, row: nat): seq<SimEvent> {
    if events == [] || events[0].row > row then [] else [events[0]] + Upto(events[1..], row)
  }

  /** The time after `rows` rows: each lasts by the speed and tempo last set on or before it. */
  function TimeAfter(c: Clock, events: seq<SimEvent>, rows: nat): (t: real)
    requires c.speed > 0 && c.tempo > 0
    ensures t >= c.t && (rows > 0 ==> t > c.t)
  {
    if rows == 0 then c.t
    else
      var now := RetimeAll(c, Upto(events, rows - 1));
      TimeAfter(c, events, rows - 1) + RowSeconds(now.speed, now.tempo)
  }

  /** The clock after a pattern. */
  function PlayPattern(c: Clock, events: seq<SimEvent>, rows: nat): (c': Clock)
    requires c.speed > 0 && c.tempo > 0
    ensures c'.speed > 0 && c'.tempo > 0 && c'.t >= c.t && (rows > 0 ==> c'.t > c.t)
  {
    var end := RetimeAll(c, events);
    Clock(end.speed, end.tempo, TimeAfter(c, events, rows))
  }

  /** The clock at the start of position `p`. */
  function ClockAt(m: SimModel, p: nat): (c: Clock)
    requires m.speed0 > 0 && m.tempo0 > 0 && p <= |m.orderPats|
    ensures c.speed > 0 && c.tempo > 0
  {
    if p == 0 then Clock(m.speed0, m.tempo0, 0.0)
    else PlayPattern(ClockAt(m, p - 1), EventsAt(m, p - 1), RowsAt(m, p - 1))
  }

  function TimingMap(m: SimModel): (r: seq<OrderSec>)
    requires m.speed0 > 0 && m.tempo0 > 0
    ensures |r| == |m.orderPats|
  {
    seq(|m.orderPats|, p requires 0 <= p < |m.orderPats| => OrderSec(m.orderPats[p].order, ClockAt(m, p).t))
  }

  // ---- Held notes ----

  /** Per channel: the sample of the last note still ringing (-1 none), and the last sample named. */
  datatype Voices = Voices(held: seq<int>, latch: seq<int>)

  function Silent(n: nat): Voices { Voices(seq(n, _ => -1), seq(n, _ => -1)) }

  ghost predicate VoicesOk(v: Voices, n: nat) { |v.held| == n && |v.latch| == n }

  function ApplySim(e: SimEvent, v: Voices): (v': Voices)
    requires e.ch < |v.held| == |v.latch|
    ensures |v'.held| == |v.held| && |v'.latch| == |v.latch|
  {
    var held := if e.off then v.held[e.ch := -1] else v.held;
    var latch := if e.explicitSample >= 0 then v.latch[e.ch := e.explicitSample] else v.latch;
    if e.hasNote then
      var s := if e.explicitSample >= 0 then e.explicitSample else latch[e.ch];
      if s >= 0 then Voices(held[e.ch := s], latch[e.ch := s]) else Voices(held, latch)
    else Voices(held, latch)
  }

  ghost predicate InChannels(events: seq<SimEvent>, n: nat) {
    forall k :: 0 <= k < |events| ==> events[k].ch < n
  }

  function ApplyAll(events: seq<SimEvent>, v: Voices, n: nat): (v': Voices)
    requires InChannels(events, n) && VoicesOk(v, n)
    ensures VoicesOk(v', n)
    decreases |events|
  {
    if events == [] then v
    else ApplySim(events[|events| - 1], ApplyAll(events[..|events| - 1], v, n))
  }

  /** Every event of the positions before `p`, in play order. */
  function History(m: SimModel, p: nat): seq<SimEvent>
    requires p <= |m.orderPats|
  {
    if p == 0 then [] else History(m, p - 1) + EventsAt(m, p - 1)
  }

  // ---- Checkpoints ----

  /** The offsets of the samples held on any channel. */
  function HeldOffsets(m: SimModel, v: Voices): set<int> {
    set c | 0 <= c < |v.held| && v.held[c] >= 0 && m.offsetOf(v.held[c]) >= 0 :: m.offsetOf(v.held[c])
  }

  /** The sample an event starts, given the channel latches before it; -1 if it starts none. */
  function Triggered(e: SimEvent, latch: seq<int>): int
    requires e.ch < |latch|
  {
    if !e.hasNote then -1 else if e.explicitSample >= 0 then e.explicitSample else latch[e.ch]
  }

  function LatchOf(e: SimEvent, latch: seq<int>): (l: seq<int>)
    requires e.ch < |latch|
    ensures |l| == |latch|
  {
    if e.explicitSample >= 0 then latch[e.ch := e.explicitSample] else latch
  }

  function LatchAll(events: seq<SimEvent>, latch: seq<int>): (l: seq<int>)
    requires InChannels(events, |latch|)
    ensures |l| == |latch|
    decreases |events|
  {
    if events == [] then latch
    else LatchOf(events[|events| - 1], LatchAll(events[..|events| - 1], latch))
  }

  /** The offsets of the samples any of `events` starts, from the given latches. */
  function TriggeredOffsets(m: SimModel, events: seq<SimEvent>, latch: seq<int>): set<int>
    requires InChannels(events, |latch|)
    decreases |events|
  {
    if events == [] then {}
    else
      var init, e := events[..|events| - 1], events[|events| - 1];
      var o := m.offsetOf(Triggered(e, LatchAll(init, latch)));
      TriggeredOffsets(m, init, latch) + if e.hasNote && o >= 0 then {o} else {}
  }

  function Stride(n: nat): (s: nat)
    ensures s > 0
  {
    Max(1, (n + MAX_CHECKPOINTS - 1) / MAX_CHECKPOINTS)
  }

  /** The events of positions [lo, hi). */
  function SpanEvents(m: SimModel, lo: nat, hi: nat): seq<SimEvent>
    requires lo <= hi <= |m.orderPats|
    decreases hi - lo
  {
    if lo == hi then [] else SpanEvents(m, lo, hi - 1) + EventsAt(m, hi - 1)
  }

  lemma HistoryInChannels(m: SimModel, p: nat)
    requires ModelOk(m) && p <= |m.orderPats|
    ensures InChannels(History(m, p), m.numChannels)
  {
    if p > 0 {
      HistoryInChannels(m, p - 1);
      EventsInChannels(m, p - 1);
    }
  }

  lemma EventsInChannels(m: SimModel, p: nat)
    requires ModelOk(m) && p < |m.orderPats|
    ensures InChannels(EventsAt(m, p), m.numChannels)
  {
  }

  lemma SpanInChannels(m: SimModel, lo: nat, hi: nat)
    requires ModelOk(m) && lo <= hi <= |m.orderPats|
    ensures InChannels(SpanEvents(m, lo, hi), m.numChannels)
    decreases hi - lo
  {
    if lo < hi {
      SpanInChannels(m, lo, hi - 1);
      EventsInChannels(m, hi - 1);
    }
  }

  /** The voices on entering position `p`. */
  function VoicesAt(m: SimModel, p: nat): (v: Voices)
    requires ModelOk(m) && p <= |m.orderPats|
    ensures VoicesOk(v, m.numChannels)
  {
    HistoryInChannels(m, p);
    ApplyAll(History(m, p), Silent(m.numChannels), m.numChannels)
  }

  /** Held on entry at `vi`, or started before the next checkpoint. */
  function ResidentAt(m: SimModel, vi: nat): set<int>
    requires ModelOk(m) && vi <= |m.orderPats|
  {
    var v := VoicesAt(m, vi);
    var next := Min(vi + Stride(|m.orderPats|), |m.orderPats|);
    SpanInChannels(m, vi, next);
    HeldOffsets(m, v) + TriggeredOffsets(m, SpanEvents(m, vi, next), v.latch)
  }

  ghost predicate Ascending(s: seq<int>) {
    forall j, k :: 0 <= j < k < |s| ==> s[j] < s[k]
  }

  /** `s` lists the set in ascending order, which determines it. */
  ghost predicate Lists(s: seq<int>, members: set<int>) {
    Ascending(s) && forall o :: o in s <==> o in members
  }

  /** Where checkpoint `k` sits: every `stride`-th position. */
  function Position(k: nat, stride: nat): nat {
    if k == 0 then 0 else Position(k - 1, stride) + stride
  }

  ghost predicate CheckpointOk(m: SimModel, k: nat, c: SeekCheckpoint)
    requires ModelOk(m)
  {
    var vi := Position(k, Stride(|m.orderPats|));
    && vi < |m.orderPats|
    && c.order == m.orderPats[vi].order
    && Lists(c.residentOffsets, ResidentAt(m, vi))
  }

  /** What `simulateTables` promises of its result. */
  ghost predicate TablesOk(m: SimModel, t: SeekTables)
    requires ModelOk(m)
  {
    var n := |m.orderPats|;
    && t.orderSeconds == TimingMap(m)
    && Position(|t.checkpoints|, Stride(n)) >= n
    && (forall k :: 0 <= k < |t.checkpoints| ==> CheckpointOk(m, k, t.checkpoints[k]))
    && Lists(t.segment0Offsets, Segment0(m))
  }

  lemma TablesTimed(m: SimModel, t: SeekTables)
    requires ModelOk(m) && TablesOk(m, t)
    ensures t.orderSeconds == TimingMap(m)
  {
  }

  /** What the first played order starts. */
  function Segment0(m: SimModel): set<int>
    requires ModelOk(m)
  {
    if m.orderPats == [] then {}
    else
      EventsInChannels(m, 0);
      TriggeredOffsets(m, EventsAt(m, 0), Silent(m.numChannels).latch)
  }

  // ---- The program's loops ----

  lemma UptoSplits(events: seq<SimEvent>, row: nat, ei: nat)
    requires ei <= |events|
    requires forall k :: 0 <= k < ei ==> events[k].row <= row
    requires ei < |events| ==> events[ei].row > row
    ensures Upto(events, row) == events[..ei]
  {
    if ei > 0 {
      assert events[1..][..ei - 1] == events[1..ei];
      UptoSplits(events[1..], row, ei - 1);
    }
  }

  ghost predicate RowSorted(events: seq<SimEvent>) {
    forall j, k :: 0 <= j < k < |events| ==> events[j].row <= events[k].row
  }

  /** `ei` is where the events before `row` end. */
  ghost predicate SplitAtRow(events: seq<SimEvent>, row: nat, ei: nat) {
    && ei <= |events|
    && (forall k :: 0 <= k < ei ==> events[k].row < row)
    && (forall k :: ei <= k < |events| ==> events[k].row >= row)
  }

  lemma NextRow(events: seq<SimEvent>, row: nat, ei: nat)
    requires SplitAtRow(events, row, ei)
    ensures ei == |events| || (ei < |events| && events[ei].row >= row)
  {
  }

  lemma AllPlayed(events: seq<SimEvent>, rows: nat, ei: nat)
    requires SplitAtRow(events, rows, ei) && forall k :: 0 <= k < |events| ==> events[k].row < rows
    ensures events[..ei] == events
  {
    NextRow(events, rows, ei);
  }

  /** The speed and tempo settings of one row. */
  method TimeRow(c0: Clock, events: seq<SimEvent>, ei0: nat, row: nat, ghost start: Clock) returns (c: Clock, ei: nat)
    requires SplitAtRow(events, row, ei0) && RowSorted(events)
    requires c0.(t := start.t) == RetimeAll(start, events[..ei0])
    ensures SplitAtRow(events, row + 1, ei)
    ensures c.(t := start.t) == RetimeAll(start, events[..ei]) && c.t == c0.t
  {
    c, ei := c0, ei0;
    while ei < |events| && events[ei].row == row
      invariant ei0 <= ei <= |events|
      invariant forall k :: 0 <= k < ei ==> events[k].row <= row
      invariant c.(t := start.t) == RetimeAll(start, events[..ei]) && c.t == c0.t
    {
      assert events[..ei + 1][..ei] == events[..ei];
      c := Retime(c, events[ei]);
      ei := ei + 1;
    }
  }

  /** One pattern of the timing pass. */
  method TimePattern(c0: Clock, ev: Option<Pattern>, numChannels: nat) returns (c: Clock)
    requires c0.speed > 0 && c0.tempo > 0 && (ev.Some? ==> PatternOk(ev.value, numChannels))
    ensures c == if ev.Some? then PlayPattern(c0, ev.value.events, ev.value.rows) else PlayPattern(c0, [], 64)
  {
    hide RetimeAll, Upto;
    var events := if ev.Some? then ev.value.events else [];
    var rows := if ev.Some? then ev.value.rows else 64;
    c := c0;
    var ei: nat := 0;
    RetimeNone(c0);
    for row := 0 to rows
      invariant SplitAtRow(events, row, ei)
      invariant c.(t := c0.t) == RetimeAll(c0, events[..ei]) && c.t == TimeAfter(c0, events, row)
    {
      c, ei := TimeRow(c, events, ei, row, c0);
      UptoSplits(events, row, ei);
      c := c.(t := c.t + RowSeconds(c.speed, c.tempo));
    }
    AllPlayed(events, rows, ei);
  }

  lemma RetimeNone(c: Clock)
    ensures RetimeAll(c, []) == c
  {
  }

  lemma ClockStep(m: SimModel, p: nat)
    requires ModelOk(m) && p < |m.orderPats|
    ensures ClockAt(m, p + 1) == PlayPattern(ClockAt(m, p), EventsAt(m, p), RowsAt(m, p))
  {
  }

  lemma TimingStep(m: SimModel, p: nat)
    requires m.speed0 > 0 && m.tempo0 > 0 && p < |m.orderPats|
    ensures TimingMap(m)[..p + 1] == TimingMap(m)[..p] + [OrderSec(m.orderPats[p].order, ClockAt(m, p).t)]
  {
    hide ClockAt;
    var t := TimingMap(m);
    assert t[p] == OrderSec(m.orderPats[p].order, ClockAt(m, p).t);
    hide TimingMap;
    assert t[..p + 1] == t[..p] + [t[p]];
  }

  method BuildTimingMap(m: SimModel) returns (r: seq<OrderSec>)
    requires ModelOk(m)
    ensures r == TimingMap(m)
  {
    hide PlayPattern, TimingMap;
    r := [];
    var c := Clock(m.speed0, m.tempo0, 0.0);
    assert c == ClockAt(m, 0);
    for p := 0 to |m.orderPats|
      invariant c == ClockAt(m, p)
      invariant r == TimingMap(m)[..p]
    {
      hide ClockAt;
      ClockStep(m, p);
      TimingStep(m, p);
      r := r + [OrderSec(m.orderPats[p].order, c.t)];
      c := TimePattern(c, m.decode(m.orderPats[p].pat), m.numChannels);
    }
  }

  lemma ApplyAllAppend(a: seq<SimEvent>, b: seq<SimEvent>, v: Voices, n: nat)
    requires InChannels(a, n) && InChannels(b, n) && VoicesOk(v, n)
    ensures InChannels(a + b, n) && ApplyAll(a + b, v, n) == ApplyAll(b, ApplyAll(a, v, n), n)
    decreases |b|
  {
    if b == [] {
      assert a + b == a;
    } else {
      assert (a + b)[..|a + b| - 1] == a + b[..|b| - 1];
      ApplyAllAppend(a, b[..|b| - 1], v, n);
    }
  }

  method WalkRow(v0: Voices, events: seq<SimEvent>, ei0: nat, row: nat, n: nat, ghost start: Voices)
    returns (v: Voices, ei: nat)
    requires InChannels(events, n) && VoicesOk(start, n)
    requires SplitAtRow(events, row, ei0) && RowSorted(events)
    requires v0 == ApplyAll(events[..ei0], start, n)
    ensures SplitAtRow(events, row + 1, ei)
    ensures v == ApplyAll(events[..ei], start, n)
  {
    v, ei := v0, ei0;
    while ei < |events| && events[ei].row == row
      invariant ei0 <= ei <= |events|
      invariant forall k :: 0 <= k < ei ==> events[k].row <= row
      invariant v == ApplyAll(events[..ei], start, n)
    {
      assert events[..ei + 1][..ei] == events[..ei];
      v := ApplySim(events[ei], v);
      ei := ei + 1;
    }
  }

  /** One pattern of the held-note walk. */
  method WalkPattern(v0: Voices, ev: Option<Pattern>, n: nat) returns (v: Voices)
    requires VoicesOk(v0, n) && (ev.Some? ==> PatternOk(ev.value, n))
    ensures VoicesOk(v, n)
    ensures var events := if ev.Some? then ev.value.events else []; InChannels(events, n) && v == ApplyAll(events, v0, n)
  {
    var events := if ev.Some? then ev.value.events else [];
    var rows := if ev.Some? then ev.value.rows else 64;
    v := v0;
    var ei: nat := 0;
    for row := 0 to rows
      invariant SplitAtRow(events, row, ei) && VoicesOk(v, n)
      invariant v == ApplyAll(events[..ei], v0, n)
    {
      v, ei := WalkRow(v, events, ei, row, n, v0);
    }
    AllPlayed(events, rows, ei);
  }

  lemma VoicesStep(m: SimModel, p: nat)
    requires ModelOk(m) && p < |m.orderPats|
    ensures InChannels(EventsAt(m, p), m.numChannels)
    ensures VoicesAt(m, p + 1) == ApplyAll(EventsAt(m, p), VoicesAt(m, p), m.numChannels)
    ensures var ev := m.decode(m.orderPats[p].pat);
      EventsAt(m, p) == (if ev.Some? then ev.value.events else [])
      && (ev.Some? ==> PatternOk(ev.value, m.numChannels))
  {
    hide ApplyAll;
    HistoryInChannels(m, p);
    EventsInChannels(m, p);
    ApplyAllAppend(History(m, p), EventsAt(m, p), Silent(m.numChannels), m.numChannels);
  }

  method WalkHistory(m: SimModel, vi: nat) returns (v: Voices)
    requires ModelOk(m) && vi <= |m.orderPats|
    ensures v == VoicesAt(m, vi)
  {
    hide ApplyAll, VoicesAt, ModelOk, EventsAt, PatternOk, InChannels;
    v := Silent(m.numChannels);
    NothingPlayed(m);
    for p := 0 to vi
      invariant v == VoicesAt(m, p)
    {
      VoicesStep(m, p);
      v := WalkPattern(v, m.decode(m.orderPats[p].pat), m.numChannels);
    }
  }

  lemma NothingPlayed(m: SimModel)
    requires ModelOk(m)
    ensures VoicesAt(m, 0) == Silent(m.numChannels)
  {
  }

  method CollectHeld(m: SimModel, v: Voices) returns (resident: set<int>)
    ensures resident == HeldOffsets(m, v)
  {
    resident := {};
    for c := 0 to |v.held|
      invariant resident == HeldOffsets(m, Voices(v.held[..c], v.latch))
    {
      var s := v.held[c];
      assert v.held[..c + 1] == v.held[..c] + [s];
      assert HeldOffsets(m, Voices(v.held[..c + 1], v.latch)) ==
        HeldOffsets(m, Voices(v.held[..c], v.latch)) + if s >= 0 && m.offsetOf(s) >= 0 then {m.offsetOf(s)} else {} by {
        HeldSnoc(m, v.held[..c], s, v.latch);
      }
      if s >= 0 && m.offsetOf(s) >= 0 {
        resident := resident + {m.offsetOf(s)};
      }
    }
    assert v.held[..|v.held|] == v.held;
  }

  lemma HeldSnoc(m: SimModel, held: seq<int>, s: int, latch: seq<int>)
    ensures HeldOffsets(m, Voices(held + [s], latch)) ==
      HeldOffsets(m, Voices(held, latch)) + if s >= 0 && m.offsetOf(s) >= 0 then {m.offsetOf(s)} else {}
  {
    var a, b := HeldOffsets(m, Voices(held + [s], latch)), HeldOffsets(m, Voices(held, latch));
    forall o | o in b
      ensures o in a
    {
      var c :| 0 <= c < |held| && held[c] >= 0 && m.offsetOf(held[c]) >= 0 && o == m.offsetOf(held[c]);
      assert (held + [s])[c] == held[c];
    }
    assert (held + [s])[|held|] == s;
  }

  lemma TriggerAppend(m: SimModel, a: seq<SimEvent>, b: seq<SimEvent>, latch: seq<int>)
    requires InChannels(a, |latch|) && InChannels(b, |latch|)
    ensures InChannels(a + b, |latch|)
    ensures LatchAll(a + b, latch) == LatchAll(b, LatchAll(a, latch))
    ensures TriggeredOffsets(m, a + b, latch) ==
      TriggeredOffsets(m, a, latch) + TriggeredOffsets(m, b, LatchAll(a, latch))
    decreases |b|
  {
    if b == [] {
      assert a + b == a;
    } else {
      assert (a + b)[..|a + b| - 1] == a + b[..|b| - 1];
      TriggerAppend(m, a, b[..|b| - 1], latch);
    }
  }

  /** Every sample a pattern's events start, added to `resident`; the latches after them. */
  method ScanTriggers(m: SimModel, events: seq<SimEvent>, latch0: seq<int>, resident0: set<int>)
    returns (resident: set<int>, latch: seq<int>)
    requires InChannels(events, |latch0|)
    ensures latch == LatchAll(events, latch0)
    ensures resident == resident0 + TriggeredOffsets(m, events, latch0)
  {
    resident, latch := resident0, latch0;
    for k := 0 to |events|
      invariant InChannels(events[..k], |latch0|)
      invariant latch == LatchAll(events[..k], latch0)
      invariant resident == resident0 + TriggeredOffsets(m, events[..k], latch0)
    {
      var e := events[k];
      assert events[..k + 1][..k] == events[..k] && events[..k + 1][k] == e;
      ghost var before := latch;
      if e.explicitSample >= 0 {
        latch := latch[e.ch := e.explicitSample];
      }
      if e.hasNote {
        var s := if e.explicitSample >= 0 then e.explicitSample else latch[e.ch];
        assert s == Triggered(e, before);
        var o := m.offsetOf(s);
        if o >= 0 {
          resident := resident + {o};
        }
      }
    }
    assert events[..|events|] == events;
  }

  method ScanSpan(m: SimModel, lo: nat, hi: nat, latch0: seq<int>, resident0: set<int>) returns (resident: set<int>)
    requires ModelOk(m) && lo <= hi <= |m.orderPats| && |latch0| == m.numChannels
    ensures InChannels(SpanEvents(m, lo, hi), m.numChannels)
    ensures resident == resident0 + TriggeredOffsets(m, SpanEvents(m, lo, hi), latch0)
  {
    hide TriggeredOffsets, LatchAll;
    resident := resident0;
    var latch := latch0;
    NothingTriggered(m, latch0);
    for p := lo to hi
      invariant InChannels(SpanEvents(m, lo, p), m.numChannels)
      invariant latch == LatchAll(SpanEvents(m, lo, p), latch0)
      invariant resident == resident0 + TriggeredOffsets(m, SpanEvents(m, lo, p), latch0)
    {
      EventsInChannels(m, p);
      TriggerAppend(m, SpanEvents(m, lo, p), EventsAt(m, p), latch0);
      resident, latch := ScanTriggers(m, EventsAt(m, p), latch, resident);
    }
  }

  lemma NothingTriggered(m: SimModel, latch: seq<int>)
    ensures TriggeredOffsets(m, [], latch) == {} && LatchAll([], latch) == latch
  {
  }

  /** `[...resident].sort(...)`. */
  method SortedOffsets(members: set<int>) returns (s: seq<int>)
    ensures Lists(s, members)
  {
    var rest, list: seq<int> := members, [];
    while rest != {}
      invariant forall o :: o in list <==> o in members && o !in rest
      invariant rest <= members
      invariant NoRepeats(list)
    {
      SomethingIn(rest);
      var o :| o in rest;
      list, rest := list + [o], rest - {o};
    }
    s := SortBy(list, (o: int) => o);
    SortByIsASort(list, (o: int) => o);
    SortByKeepsMembers(list, (o: int) => o);
    DistinctSorts(list, s);
  }

  lemma SomethingIn(s: set<int>)
    ensures s == {} || exists o :: o in s
  {
    if forall o :: o !in s {
      assert s == {};
    }
  }

  lemma DistinctSorts(list: seq<int>, s: seq<int>)
    requires multiset(s) == multiset(list) && SortedBy(s, (o: int) => o)
    requires NoRepeats(list)
    ensures Ascending(s)
  {
    var key := (o: int) => o;
    forall j, k | 0 <= j < k < |s|
      ensures s[j] < s[k]
    {
      assert key(s[j]) <= key(s[k]);
      if s[j] == s[k] {
        RepeatsShow(s, j, k);
        OnceCounts(list, s[j]);
      }
    }
  }

  method CheckpointAt(m: SimModel, vi: nat) returns (c: SeekCheckpoint)
    requires ModelOk(m) && vi < |m.orderPats|
    ensures c.order == m.orderPats[vi].order && Lists(c.residentOffsets, ResidentAt(m, vi))
  {
    hide VoicesAt, TriggeredOffsets, HeldOffsets, Lists, SpanEvents;
    var v := WalkHistory(m, vi);
    var resident := CollectHeld(m, v);
    var next := Min(vi + Stride(|m.orderPats|), |m.orderPats|);
    resident := ScanSpan(m, vi, next, v.latch, resident);
    var offsets := SortedOffsets(resident);
    c := SeekCheckpoint(m.orderPats[vi].order, offsets);
  }

  /** `simulateTables`. */
  method SimulateTables(m: SimModel) returns (t: SeekTables)
    requires ModelOk(m)
    ensures TablesOk(m, t)
  {
    hide TimingMap, ResidentAt, Lists, Segment0;
    var orderSeconds := BuildTimingMap(m);
    var n := |m.orderPats|;
    var stride := Stride(n);
    var checkpoints: seq<SeekCheckpoint> := [];
    var vi: nat := 0;
    while vi < n
      invariant vi == Position(|checkpoints|, stride)
      invariant forall k :: 0 <= k < |checkpoints| ==> CheckpointOk(m, k, checkpoints[k])
      decreases n - vi
    {
      var c := CheckpointAt(m, vi);
      checkpoints := checkpoints + [c];
      vi := vi + stride;
    }
    var segment0 := OpeningTriggers(m);
    t := SeekTables(orderSeconds, segment0, checkpoints);
  }

  method OpeningTriggers(m: SimModel) returns (s: seq<int>)
    requires ModelOk(m)
    ensures Lists(s, Segment0(m))
  {
    var segment0: set<int> := {};
    if m.orderPats != [] {
      EventsInChannels(m, 0);
      var latch;
      segment0, latch := ScanTriggers(m, EventsAt(m, 0), Silent(m.numChannels).latch, {});
    }
    s := SortedOffsets(segment0);
  }
}
