/**
 * When an order starts: the rows played before it, each as long as the speed and tempo last set by then
 * make it. Settings are read off everything played so far, not off the clock the planner carries.
 */
module TimingLaws {
  import opened Plan
  import opened Seek
  import opened SeekTime
  import opened ClientFence

  // ---- The settings in force ----

  /** The speed last set, or the one the song starts with. */
  function LastSpeed(events: seq<SimEvent>, first: nat): (s: nat)
    ensures first > 0 ==> s > 0
  {
    if events == [] then first
    else
      var e := events[|events| - 1];
      if e.setSpeed > 0 then e.setSpeed else LastSpeed(events[..|events| - 1], first)
  }

  function LastTempo(events: seq<SimEvent>, first: nat): (t: nat)
    ensures first > 0 ==> t > 0
  {
    if events == [] then first
    else
      var e := events[|events| - 1];
      if e.setTempo > 0 then e.setTempo else LastTempo(events[..|events| - 1], first)
  }

  /** The events on rows up to and including `row`. */
  function OnRowsTo(events: seq<SimEvent>, row: nat): seq<SimEvent> {
    if events == [] then []
    else
      var e := events[|events| - 1];
      OnRowsTo(events[..|events| - 1], row) + if e.row <= row then [e] else []
  }

  /** Everything played up to and including a row of position `p`. */
  function HeardBy(m: SimModel, p: nat, row: nat): seq<SimEvent>
    requires p < |m.orderPats|
  {
    History(m, p) + OnRowsTo(EventsAt(m, p), row)
  }

  function RowLength(m: SimModel, p: nat, row: nat): real
    requires m.speed0 > 0 && m.tempo0 > 0 && p < |m.orderPats|
  {
    var played := HeardBy(m, p, row);
    2.5 * LastSpeed(played, m.speed0) as real / LastTempo(played, m.tempo0) as real
  }

  /** The length of the first `rows` rows of position `p`. */
  function RowsLength(m: SimModel, p: nat, rows: nat): real
    requires m.speed0 > 0 && m.tempo0 > 0 && p < |m.orderPats|
  {
    if rows == 0 then 0.0 else RowsLength(m, p, rows - 1) + RowLength(m, p, rows - 1)
  }

  /** The length of everything before position `p`. */
  function LengthBefore(m: SimModel, p: nat): real
    requires m.speed0 > 0 && m.tempo0 > 0 && p <= |m.orderPats|
  {
    if p == 0 then 0.0 else LengthBefore(m, p - 1) + RowsLength(m, p - 1, RowsAt(m, p - 1))
  }

  // ---- The planner's clock carries them ----

  lemma {:induction false} ClockCarriesLast(c: Clock, events: seq<SimEvent>)
    ensures RetimeAll(c, events).speed == LastSpeed(events, c.speed)
    ensures RetimeAll(c, events).tempo == LastTempo(events, c.tempo)
    decreases |events|
  {
    if events != [] {
      ClockCarriesLast(c, events[..|events| - 1]);
    }
  }

  lemma {:induction false} LastOfAppend(a: seq<SimEvent>, b: seq<SimEvent>, speed: nat, tempo: nat)
    ensures LastSpeed(a + b, speed) == LastSpeed(b, LastSpeed(a, speed))
    ensures LastTempo(a + b, tempo) == LastTempo(b, LastTempo(a, tempo))
    decreases |b|
  {
    if b == [] {
      assert a + b == a;
    } else {
      assert (a + b)[..|a + b| - 1] == a + b[..|b| - 1];
      LastOfAppend(a, b[..|b| - 1], speed, tempo);
    }
  }

  lemma {:induction false} RowsToFirst(events: seq<SimEvent>, row: nat)
    requires RowSorted(events) && events != []
    ensures OnRowsTo(events, row) == if events[0].row > row then [] else [events[0]] + OnRowsTo(events[1..], row)
    decreases |events|
  {
    var init, e := events[..|events| - 1], events[|events| - 1];
    if init != [] {
      RowsToFirst(init, row);
      assert events[1..][..|events| - 2] == init[1..];
    }
  }

  lemma {:induction false} RowsToIsUpto(events: seq<SimEvent>, row: nat)
    requires RowSorted(events)
    ensures OnRowsTo(events, row) == Upto(events, row)
    decreases |events|
  {
    if events != [] {
      RowsToFirst(events, row);
      if events[0].row <= row {
        RowsToIsUpto(events[1..], row);
      }
    }
  }

  /** The clock's row lengths are those of the settings heard by the row. */
  lemma {:induction false} RowsTimed(m: SimModel, p: nat, c: Clock, rows: nat)
    requires m.speed0 > 0 && m.tempo0 > 0 && p < |m.orderPats| && RowSorted(EventsAt(m, p))
    requires c.speed == LastSpeed(History(m, p), m.speed0) && c.tempo == LastTempo(History(m, p), m.tempo0)
    requires c.speed > 0 && c.tempo > 0
    ensures TimeAfter(c, EventsAt(m, p), rows) == c.t + RowsLength(m, p, rows)
    decreases rows
  {
    hide History, EventsAt;
    if rows > 0 {
      RowsTimed(m, p, c, rows - 1);
      RowTimed(m, p, c, rows - 1);
    }
  }

  lemma RowTimed(m: SimModel, p: nat, c: Clock, row: nat)
    requires m.speed0 > 0 && m.tempo0 > 0 && p < |m.orderPats| && RowSorted(EventsAt(m, p))
    requires c.speed == LastSpeed(History(m, p), m.speed0) && c.tempo == LastTempo(History(m, p), m.tempo0)
    requires c.speed > 0 && c.tempo > 0
    ensures var now := RetimeAll(c, Upto(EventsAt(m, p), row));
      RowSeconds(now.speed, now.tempo) == RowLength(m, p, row)
  {
    hide History, EventsAt, RetimeAll, LastSpeed, LastTempo, OnRowsTo, Upto;
    RowsToIsUpto(EventsAt(m, p), row);
    ClockCarriesLast(c, Upto(EventsAt(m, p), row));
    LastOfAppend(History(m, p), OnRowsTo(EventsAt(m, p), row), m.speed0, m.tempo0);
  }

  lemma EventsSorted(m: SimModel, p: nat)
    requires ModelOk(m) && p < |m.orderPats|
    ensures RowSorted(EventsAt(m, p))
  {
  }

  lemma {:induction false} ClockIs(m: SimModel, p: nat)
    requires ModelOk(m) && p <= |m.orderPats|
    ensures ClockAt(m, p) == Clock(LastSpeed(History(m, p), m.speed0), LastTempo(History(m, p), m.tempo0), LengthBefore(m, p))
    decreases p
  {
    hide EventsAt, RetimeAll, TimeAfter, RowsLength, RowsAt;
    if p > 0 {
      ClockIs(m, p - 1);
      EventsSorted(m, p - 1);
      hide ModelOk;
      var c := ClockAt(m, p - 1);
      RowsTimed(m, p - 1, c, RowsAt(m, p - 1));
      ClockCarriesLast(c, EventsAt(m, p - 1));
      LastOfAppend(History(m, p - 1), EventsAt(m, p - 1), m.speed0, m.tempo0);
    }
  }

  /** An order starts when everything before it has been played. */
  lemma StartIsSumOfRows(m: SimModel, t: SeekTables, p: nat)
    requires ModelOk(m) && TablesOk(m, t) && p < |m.orderPats|
    ensures |t.orderSeconds| == |m.orderPats|
    ensures t.orderSeconds[p] == OrderSec(m.orderPats[p].order, LengthBefore(m, p))
  {
    hide ClockAt;
    ClockIs(m, p);
  }

  lemma LengthsDoNotDecrease(m: SimModel, p: nat, q: nat)
    requires ModelOk(m) && p <= q <= |m.orderPats|
    ensures 0.0 <= LengthBefore(m, p) <= LengthBefore(m, q)
  {
    hide ModelOk, ClockAt, LengthBefore;
    ClockIs(m, 0);
    ClockIs(m, p);
    ClockIs(m, q);
    StartTimesDoNotDecrease(m, 0, p);
    StartTimesDoNotDecrease(m, p, q);
    NothingBefore(m);
  }

  lemma NothingBefore(m: SimModel)
    requires m.speed0 > 0 && m.tempo0 > 0
    ensures LengthBefore(m, 0) == 0.0
  {
  }

  /** The client's seconds for a played order are the length of what is played before it. */
  lemma SecondsForPlayedOrder(m: SimModel, t: SeekTables, p: nat)
    requires ModelOk(m) && TablesOk(m, t) && p < |m.orderPats|
    ensures SecondsForOrder(t.orderSeconds, m.orderPats[p].order) == LengthBefore(m, p)
  {
    hide TablesOk, LengthBefore, SecondsForOrder, PatternOk;
    var order, os := m.orderPats[p].order, t.orderSeconds;
    SecondsForOrderIs(os, order);
    StartIsSumOfRows(m, t, p);
    assert os[p] in os;
    LengthsDoNotDecrease(m, p, p);
    forall e | e in os && e.order <= order
      ensures e.seconds <= LengthBefore(m, p)
    {
      var i: nat :| i < |os| && os[i] == e;
      StartIsSumOfRows(m, t, i);
      assert i <= p;
      LengthsDoNotDecrease(m, i, p);
    }
  }
}
