/**
 * The fence has no gap. What can sound is defined on the play order alone, without the simulation's
 * state; every sample that can sound in an order is required at that order, if it is streamed.
 */
module FenceCoverage {
  import opened Basics
  import opened Sorting
  import opened Plan
  import opened Seek

  // ---- What can sound ----

  /** The last sample named on a channel, or -1. */
  function LastNamed(events: seq<SimEvent>, ch: nat): (s: int)
    ensures s >= -1
    decreases |events|
  {
    if events == [] then -1
    else
      var e := events[|events| - 1];
      if e.ch == ch && e.explicitSample >= 0 then e.explicitSample else LastNamed(events[..|events| - 1], ch)
  }

  /** The sample ringing on a channel after `events`: its last note, unless cut since. */
  function Sounding(events: seq<SimEvent>, ch: nat): Option<int>
    decreases |events|
  {
    if events == [] then None
    else
      var e := events[|events| - 1];
      if e.ch == ch && e.hasNote && LastNamed(events, ch) >= 0 then Some(LastNamed(events, ch))
      else if e.ch == ch && e.off then None
      else Sounding(events[..|events| - 1], ch)
  }

  /** Everything played before the `k`-th event of position `p`. */
  function Played(m: SimModel, p: nat, k: nat): seq<SimEvent>
    requires p < |m.orderPats| && k <= |EventsAt(m, p)|
  {
    History(m, p) + EventsAt(m, p)[..k]
  }

  // ---- The simulation computes it ----

  ghost predicate VoicesMean(v: Voices, events: seq<SimEvent>, ch: nat)
    requires ch < |v.held| == |v.latch|
  {
    && v.latch[ch] == LastNamed(events, ch)
    && v.held[ch] == match Sounding(events, ch) case Some(s) => s case None => -1
  }

  lemma {:induction false} SimulationIsRight(events: seq<SimEvent>, n: nat, ch: nat)
    requires InChannels(events, n) && ch < n
    ensures VoicesMean(ApplyAll(events, Silent(n), n), events, ch)
    decreases |events|
  {
    if events != [] {
      SimulationIsRight(events[..|events| - 1], n, ch);
    }
  }

  lemma {:induction false} LatchIsLastNamed(before: seq<SimEvent>, events: seq<SimEvent>, latch: seq<int>, ch: nat)
    requires InChannels(events, |latch|) && ch < |latch| && latch[ch] == LastNamed(before, ch)
    ensures LatchAll(events, latch)[ch] == LastNamed(before + events, ch)
    decreases |events|
  {
    if events == [] {
      assert before + events == before;
    } else {
      assert (before + events)[..|before + events| - 1] == before + events[..|events| - 1];
      LatchIsLastNamed(before, events[..|events| - 1], latch, ch);
    }
  }

  /** What sounds after a span was already sounding before it, or was started in it. */
  lemma {:induction false} SoundingComesFrom(
    m: SimModel, before: seq<SimEvent>, events: seq<SimEvent>, latch: seq<int>, ch: nat, s: int)
    requires InChannels(events, |latch|) && ch < |latch| && latch[ch] == LastNamed(before, ch)
    requires Sounding(before + events, ch) == Some(s) && m.offsetOf(s) >= 0
    ensures Sounding(before, ch) == Some(s) || m.offsetOf(s) in TriggeredOffsets(m, events, latch)
    decreases |events|
  {
    if events == [] {
      assert before + events == before;
    } else {
      var init, e := events[..|events| - 1], events[|events| - 1];
      assert (before + events)[..|before + events| - 1] == before + init;
      LatchIsLastNamed(before, events, latch, ch);
      LatchIsLastNamed(before, init, latch, ch);
      if e.ch == ch && e.hasNote && LastNamed(before + events, ch) >= 0 {
        assert Triggered(e, LatchAll(init, latch)) == s;
      } else {
        SoundingComesFrom(m, before, init, latch, ch, s);
      }
    }
  }

  // ---- Every checkpoint covers its span ----

  lemma {:induction false} HistorySplits(m: SimModel, lo: nat, hi: nat)
    requires lo <= hi <= |m.orderPats|
    ensures History(m, hi) == History(m, lo) + SpanEvents(m, lo, hi)
    decreases hi - lo
  {
    if lo < hi {
      HistorySplits(m, lo, hi - 1);
      assert History(m, hi) == History(m, lo) + (SpanEvents(m, lo, hi - 1) + EventsAt(m, hi - 1));
    } else {
      assert History(m, lo) + [] == History(m, lo);
    }
  }

  lemma {:induction false} SpanSplits(m: SimModel, lo: nat, mid: nat, hi: nat)
    requires lo <= mid <= hi <= |m.orderPats|
    ensures SpanEvents(m, lo, hi) == SpanEvents(m, lo, mid) + SpanEvents(m, mid, hi)
    decreases hi - mid
  {
    if mid < hi {
      SpanSplits(m, lo, mid, hi - 1);
      assert SpanEvents(m, lo, hi) == SpanEvents(m, lo, mid) + (SpanEvents(m, mid, hi - 1) + EventsAt(m, hi - 1));
    } else {
      assert SpanEvents(m, lo, mid) + [] == SpanEvents(m, lo, mid);
    }
  }

  /** A played prefix, cut at the checkpoint position: the span part is a prefix of the whole span. */
  lemma PlayedSplits(m: SimModel, vi: nat, next: nat, p: nat, k: nat) returns (x: seq<SimEvent>, y: seq<SimEvent>)
    requires vi <= p < next <= |m.orderPats| && k <= |EventsAt(m, p)|
    ensures Played(m, p, k) == History(m, vi) + x && SpanEvents(m, vi, next) == x + y
  {
    hide History, SpanEvents;
    HistorySplits(m, vi, p);
    var ev := EventsAt(m, p);
    x, y := SpanEvents(m, vi, p) + ev[..k], ev[k..] + SpanEvents(m, p + 1, next);
    SpanSplits(m, vi, p, next);
    SpanStep(m, p, next);
    assert ev == ev[..k] + ev[k..];
    assert SpanEvents(m, vi, next) == x + y;
  }

  lemma SpanStep(m: SimModel, p: nat, next: nat)
    requires p < next <= |m.orderPats|
    ensures SpanEvents(m, p, next) == EventsAt(m, p) + SpanEvents(m, p + 1, next)
  {
    hide EventsAt;
    SpanSplits(m, p, p + 1, next);
    assert SpanEvents(m, p, p) == [];
    assert SpanEvents(m, p, p + 1) == [] + EventsAt(m, p);
  }

  lemma CheckpointCoversSpan(m: SimModel, vi: nat, p: nat, k: nat, ch: nat, s: int)
    requires ModelOk(m) && vi <= p < |m.orderPats| && p < vi + Stride(|m.orderPats|)
    requires k <= |EventsAt(m, p)| && ch < m.numChannels
    requires Sounding(Played(m, p, k), ch) == Some(s) && m.offsetOf(s) >= 0
    ensures m.offsetOf(s) in ResidentAt(m, vi)
  {
    hide Sounding, TriggeredOffsets, ApplyAll, LastNamed, Played, Stride, History, SpanEvents, EventsAt, HeldOffsets;
    var next := Min(vi + Stride(|m.orderPats|), |m.orderPats|);
    var x, y := PlayedSplits(m, vi, next, p, k);
    HistoryInChannels(m, vi);
    SpanInChannels(m, vi, next);
    var v := VoicesAt(m, vi);
    SimulationIsRight(History(m, vi), m.numChannels, ch);
    assert InChannels(x, m.numChannels) by { PrefixInChannels(x, y, m.numChannels); }
    SoundingComesFrom(m, History(m, vi), x, v.latch, ch, s);
    if Sounding(History(m, vi), ch) == Some(s) {
      HeldIsResident(m, v, ch, s);
    } else {
      assert InChannels(y, m.numChannels) by { PrefixInChannels(x, y, m.numChannels); }
      TriggerAppend(m, x, y, v.latch);
    }
  }

  lemma PrefixInChannels(x: seq<SimEvent>, y: seq<SimEvent>, n: nat)
    requires InChannels(x + y, n)
    ensures InChannels(x, n) && InChannels(y, n)
  {
    assert forall k :: 0 <= k < |x| ==> (x + y)[k] == x[k];
    assert forall k :: 0 <= k < |y| ==> (x + y)[|x| + k] == y[k];
  }

  lemma HeldIsResident(m: SimModel, v: Voices, ch: nat, s: int)
    requires ModelOk(m) && ch < |v.held| && v.held[ch] == s && m.offsetOf(s) >= 0
    ensures m.offsetOf(s) in HeldOffsets(m, v)
  {
  }

  // ---- From covered offsets to required slots ----

  lemma {:induction false} FindSpan(p: nat, stride: nat, count: nat) returns (k: nat)
    requires stride > 0 && p < Position(count, stride)
    ensures k < count && Position(k, stride) <= p < Position(k, stride) + stride
  {
    if p >= Position(count - 1, stride) {
      k := count - 1;
    } else {
      k := FindSpan(p, stride, count - 1);
    }
  }

  lemma {:induction false} PositionsAscend(j: nat, k: nat, stride: nat)
    requires j < k && stride > 0
    ensures Position(j, stride) + stride <= Position(k, stride)
    decreases k
  {
    if j < k - 1 {
      PositionsAscend(j, k - 1, stride);
    }
  }

  ghost predicate OrdersAscend(cps: seq<SeekCheckpoint>) {
    forall j, k :: 0 <= j < k < |cps| ==> cps[j].order < cps[k].order
  }

  lemma TablesAscend(m: SimModel, t: SeekTables)
    requires ModelOk(m) && TablesOk(m, t)
    ensures OrdersAscend(t.checkpoints)
  {
    hide ResidentAt, Lists;
    var stride := Stride(|m.orderPats|);
    forall j, k | 0 <= j < k < |t.checkpoints|
      ensures t.checkpoints[j].order < t.checkpoints[k].order
    {
      PositionsAscend(j, k, stride);
      assert CheckpointOk(m, j, t.checkpoints[j]) && CheckpointOk(m, k, t.checkpoints[k]);
    }
  }

  lemma ResolvedFrom(cps: seq<SeekCheckpoint>, streamed: seq<StreamedSlot>, q: Checkpoint) returns (j: nat)
    requires q in FilterMap(cps, Resolver(streamed))
    ensures j < |cps| && Resolve(streamed, cps[j]) == Some(q)
  {
    FilterMapMembers(cps, Resolver(streamed));
    var c :| c in cps && Resolver(streamed)(c) == Some(q);
    j :| 0 <= j < |cps| && cps[j] == c;
  }

  lemma {:induction false} ResolvedSorted(cps: seq<SeekCheckpoint>, streamed: seq<StreamedSlot>)
    requires OrdersAscend(cps)
    ensures SortedBy(FilterMap(cps, Resolver(streamed)), ByOrder())
  {
    if cps != [] {
      ResolvedSorted(cps[1..], streamed);
      var rest := FilterMap(cps[1..], Resolver(streamed));
      forall k | 0 <= k < |rest|
        ensures cps[0].order <= rest[k].order
      {
        var j := ResolvedFrom(cps[1..], streamed, rest[k]);
        assert cps[1..][j] == cps[j + 1];
      }
    }
  }

  /** A checkpoint that resolves is the floor for every order from its own up to the next one's. */
  lemma ResolvedIsFloor(cps: seq<SeekCheckpoint>, streamed: seq<StreamedSlot>, k: nat, order: nat)
    requires OrdersAscend(cps) && k < |cps| && Resolve(streamed, cps[k]).Some?
    requires cps[k].order <= order && (k + 1 < |cps| ==> order < cps[k + 1].order)
    ensures var p, f := FilterMap(cps, Resolver(streamed)), Floor(FilterMap(cps, Resolver(streamed)), order);
      f >= 0 && p[f] == Resolve(streamed, cps[k]).value
  {
    hide FilterMap, Floor, Resolve;
    var p := FilterMap(cps, Resolver(streamed));
    FilterMapPosition(cps, Resolver(streamed), k);
    var j := |FilterMap(cps[..k], Resolver(streamed))|;
    assert p[j].order <= order by { ResolveKeepsOrder(streamed, cps[k]); }
    forall i | j < i < |p|
      ensures p[i].order > order
    {
      assert p[i] == p[j + 1..][i - j - 1];
      var l := ResolvedFrom(cps[k + 1..], streamed, p[i]);
      assert cps[k + 1..][l] == cps[k + 1 + l];
      ResolveKeepsOrder(streamed, cps[k + 1 + l]);
    }
    FloorFound(p, order, j);
  }

  lemma ResolveKeepsOrder(streamed: seq<StreamedSlot>, c: SeekCheckpoint)
    ensures Resolve(streamed, c).Some? ==> Resolve(streamed, c).value.order == c.order
  {
  }

  lemma OffsetBecomesSlot(streamed: seq<StreamedSlot>, offs: seq<int>, o: int, i: nat)
    requires o in offs && SlotAt(streamed, o) == Some(i)
    ensures i in ToSlots(streamed, offs)
  {
    FilterMapMembers(offs, (x: int) => SlotAt(streamed, x));
    assert ((x: int) => SlotAt(streamed, x))(o) == Some(i);
  }

  /** A resolved checkpoint's slots are required throughout its span. */
  lemma ResolvedIsRequired(t: SeekTables, streamed: seq<StreamedSlot>, k: nat, order: nat, i: nat)
    requires OrdersAscend(t.checkpoints) && k < |t.checkpoints|
    requires t.checkpoints[k].order <= order && (k + 1 < |t.checkpoints| ==> order < t.checkpoints[k + 1].order)
    requires i in ToSlots(streamed, t.checkpoints[k].residentOffsets)
    ensures i in RequiredAt(PlanOf(Some(t), streamed), order)
  {
    hide FilterMap, Floor, SortBy, ToSlots;
    var p := FilterMap(t.checkpoints, Resolver(streamed));
    ResolvedIsFloor(t.checkpoints, streamed, k, order);
    ResolvedSorted(t.checkpoints, streamed);
    SortOfSorted(p, ByOrder());
    var f := Floor(p, order);
    assert i in p[f].samples;
    assert PlanOf(Some(t), streamed).checkpoints == p;
    assert i in Samples(p, Max(f, 0), Min(Max(f + 1, 0), |p| - 1));
  }

  /** A checkpoint that resolves comes right after the floor for every order from the last one's up to its own. */
  lemma ResolvedIsNext(cps: seq<SeekCheckpoint>, streamed: seq<StreamedSlot>, k: nat, order: nat)
    requires OrdersAscend(cps) && 0 < k < |cps| && Resolve(streamed, cps[k]).Some?
    requires cps[k - 1].order <= order < cps[k].order
    ensures var p, f := FilterMap(cps, Resolver(streamed)), Floor(FilterMap(cps, Resolver(streamed)), order);
      f + 1 < |p| && p[f + 1] == Resolve(streamed, cps[k]).value
  {
    hide FilterMap, Floor, Resolve;
    var p := FilterMap(cps, Resolver(streamed));
    FilterMapPosition(cps, Resolver(streamed), k);
    FilterMapAppend(cps[..k], cps[k..], Resolver(streamed));
    assert cps == cps[..k] + cps[k..];
    var early, late := FilterMap(cps[..k], Resolver(streamed)), FilterMap(cps[k..], Resolver(streamed));
    var j := |early|;
    forall i | 0 <= i < j
      ensures p[i].order <= order
    {
      var l := ResolvedFrom(cps[..k], streamed, early[i]);
      ResolveKeepsOrder(streamed, cps[l]);
    }
    forall i | j <= i < |p|
      ensures p[i].order > order
    {
      var l := ResolvedFrom(cps[k..], streamed, late[i - j]);
      assert cps[k..][l] == cps[k + l];
      ResolveKeepsOrder(streamed, cps[k + l]);
    }
    FloorFound(p, order, j - 1);
  }

  /** A resolved checkpoint's slots are required throughout the span before it, even when nothing there resolves. */
  lemma NextIsRequired(t: SeekTables, streamed: seq<StreamedSlot>, k: nat, order: nat, i: nat)
    requires OrdersAscend(t.checkpoints) && 0 < k < |t.checkpoints|
    requires t.checkpoints[k - 1].order <= order < t.checkpoints[k].order
    requires i in ToSlots(streamed, t.checkpoints[k].residentOffsets)
    ensures i in RequiredAt(PlanOf(Some(t), streamed), order)
  {
    hide FilterMap, Floor, SortBy, ToSlots;
    var p := FilterMap(t.checkpoints, Resolver(streamed));
    ResolvedIsNext(t.checkpoints, streamed, k, order);
    ResolvedSorted(t.checkpoints, streamed);
    SortOfSorted(p, ByOrder());
    var f := Floor(p, order);
    assert i in p[f + 1].samples;
    assert PlanOf(Some(t), streamed).checkpoints == p;
    assert i in Samples(p, Max(f, 0), Min(Max(f + 1, 0), |p| - 1));
  }

  lemma SoundingInChannels(events: seq<SimEvent>, n: nat, ch: nat)
    requires InChannels(events, n) && Sounding(events, ch).Some?
    ensures ch < n
    decreases |events|
  {
    if ch >= n {
      SoundingInChannels(events[..|events| - 1], n, ch);
    }
  }

  lemma PlayedInChannels(m: SimModel, p: nat, k: nat)
    requires ModelOk(m) && p < |m.orderPats| && k <= |EventsAt(m, p)|
    ensures InChannels(Played(m, p, k), m.numChannels)
  {
    HistoryInChannels(m, p);
    EventsInChannels(m, p);
  }

  /** Position `p` lies in the span of checkpoint `q`. */
  predicate InSpan(n: nat, q: nat, p: nat) {
    Position(q, Stride(n)) <= p < Position(q, Stride(n)) + Stride(n)
  }

  /** Position `p2` lies in the checkpoint span of `p`, or in the one after it. */
  ghost predicate WithinReach(n: nat, p: nat, p2: nat) {
    exists q: nat :: InSpan(n, q, p) && (InSpan(n, q, p2) || InSpan(n, q + 1, p2))
  }

  /** The position itself is in reach, and so is the next one. */
  lemma NextIsWithinReach(n: nat, p: nat)
    ensures WithinReach(n, p, p) && WithinReach(n, p, p + 1)
  {
    var stride := Stride(n);
    var count := PositionsGrow(p, stride);
    var q := FindSpan(p, stride, count);
    assert InSpan(n, q, p);
    assert InSpan(n, q, p + 1) || InSpan(n, q + 1, p + 1);
  }

  lemma {:induction false} PositionsGrow(p: nat, stride: nat) returns (count: nat)
    requires stride > 0
    ensures p < Position(count, stride)
  {
    if p == 0 {
      count := 1;
    } else {
      var before := PositionsGrow(p - 1, stride);
      count := before + 1;
    }
  }

  /** A span's checkpoint names every streamed slot that can sound in the span. */
  lemma SpanNamesSounding(
    m: SimModel, t: SeekTables, streamed: seq<StreamedSlot>, q: nat, p: nat, k: nat, ch: nat, s: int, i: nat)
    requires ModelOk(m) && TablesOk(m, t)
    requires p < |m.orderPats| && k <= |EventsAt(m, p)| && InSpan(|m.orderPats|, q, p)
    requires Sounding(Played(m, p, k), ch) == Some(s)
    requires SlotAt(streamed, m.offsetOf(s)) == Some(i)
    ensures q < |t.checkpoints| && i in ToSlots(streamed, t.checkpoints[q].residentOffsets)
  {
    hide Sounding, Played, ResidentAt, ToSlots, EventsAt;
    PlayedInChannels(m, p, k);
    SoundingInChannels(Played(m, p, k), m.numChannels, ch);
    SlotOffsetsAreNat(streamed, m.offsetOf(s));
    SpanIsListed(m, t, q, p);
    assert CheckpointOk(m, q, t.checkpoints[q]);
    CheckpointCoversSpan(m, Position(q, Stride(|m.orderPats|)), p, k, ch, s);
    OffsetBecomesSlot(streamed, t.checkpoints[q].residentOffsets, m.offsetOf(s), i);
  }

  /**
   * What the checkpoint after the floor is for: the fence asked at one order also covers everything that
   * can sound up to the end of the next checkpoint's span, so playing may run on into it unasked.
   */
  lemma FenceLooksAhead(
    m: SimModel, t: SeekTables, streamed: seq<StreamedSlot>, p: nat, p2: nat, k: nat, ch: nat, s: int, i: nat)
    requires ModelOk(m) && TablesOk(m, t)
    requires p < |m.orderPats| && WithinReach(|m.orderPats|, p, p2)
    requires p2 < |m.orderPats| && k <= |EventsAt(m, p2)|
    requires Sounding(Played(m, p2, k), ch) == Some(s)
    requires SlotAt(streamed, m.offsetOf(s)) == Some(i)
    ensures i in RequiredAt(PlanOf(Some(t), streamed), m.orderPats[p].order)
  {
    hide ModelOk, TablesOk, Sounding, Played, PlanOf, RequiredAt, ToSlots, EventsAt, InSpan;
    var n, order := |m.orderPats|, m.orderPats[p].order;
    var q: nat :| InSpan(n, q, p) && (InSpan(n, q, p2) || InSpan(n, q + 1, p2));
    TablesAscend(m, t);
    SpanIsListed(m, t, q, p);
    SpanOrders(m, t, q, p);
    if InSpan(n, q, p2) {
      SpanNamesSounding(m, t, streamed, q, p2, k, ch, s, i);
      ResolvedIsRequired(t, streamed, q, order, i);
    } else {
      SpanNamesSounding(m, t, streamed, q + 1, p2, k, ch, s, i);
      NextIsRequired(t, streamed, q + 1, order, i);
    }
  }

  /**
   * The fence has no gap. Whatever can sound on any channel at any event of any played order, if its
   * on-disk offset is streamed, the slot registered at that offset is required at that order.
   */
  lemma FenceHasNoGap(m: SimModel, t: SeekTables, streamed: seq<StreamedSlot>, p: nat, k: nat, ch: nat, s: int, i: nat)
    requires ModelOk(m) && TablesOk(m, t)
    requires p < |m.orderPats| && k <= |EventsAt(m, p)|
    requires Sounding(Played(m, p, k), ch) == Some(s)
    requires SlotAt(streamed, m.offsetOf(s)) == Some(i)
    ensures i in RequiredAt(PlanOf(Some(t), streamed), m.orderPats[p].order)
  {
    NextIsWithinReach(|m.orderPats|, p);
    hide *;
    FenceLooksAhead(m, t, streamed, p, p, k, ch, s, i);
  }

  /** The span that holds a played position has its checkpoint. */
  lemma SpanIsListed(m: SimModel, t: SeekTables, q: nat, p: nat)
    requires ModelOk(m) && TablesOk(m, t) && p < |m.orderPats|
    requires InSpan(|m.orderPats|, q, p)
    ensures q < |t.checkpoints|
  {
    hide ResidentAt, Lists, TimingMap, Segment0;
    if q > |t.checkpoints| {
      PositionsAscend(|t.checkpoints|, q, Stride(|m.orderPats|));
    }
  }

  lemma SlotOffsetsAreNat(streamed: seq<StreamedSlot>, o: int)
    requires SlotAt(streamed, o).Some?
    ensures o >= 0
    decreases |streamed|
  {
    if streamed[|streamed| - 1].offset != o {
      SlotOffsetsAreNat(streamed[..|streamed| - 1], o);
    }
  }

  lemma SpanOrders(m: SimModel, t: SeekTables, q: nat, p: nat)
    requires ModelOk(m) && TablesOk(m, t) && q < |t.checkpoints| && p < |m.orderPats|
    requires InSpan(|m.orderPats|, q, p)
    ensures t.checkpoints[q].order <= m.orderPats[p].order
    ensures q + 1 < |t.checkpoints| ==> m.orderPats[p].order < t.checkpoints[q + 1].order
  {
    hide ResidentAt, Lists, TimingMap, Segment0;
    assert CheckpointOk(m, q, t.checkpoints[q]);
    if q + 1 < |t.checkpoints| {
      assert CheckpointOk(m, q + 1, t.checkpoints[q + 1]);
    }
  }

  // ---- Slots that share an offset ----

  ghost predicate DistinctIndices(streamed: seq<StreamedSlot>) {
    forall j, k :: 0 <= j < k < |streamed| ==> streamed[j].index != streamed[k].index
  }

  ghost predicate LastAtOffset(streamed: seq<StreamedSlot>, j: nat)
    requires j < |streamed|
  {
    forall k :: j < k < |streamed| ==> streamed[k].offset != streamed[j].offset
  }

  lemma {:induction false} SlotAtIsLast(streamed: seq<StreamedSlot>, o: int, i: nat) returns (j: nat)
    requires SlotAt(streamed, o) == Some(i)
    ensures j < |streamed| && streamed[j].offset == o && streamed[j].index == i && LastAtOffset(streamed, j)
    decreases |streamed|
  {
    if streamed[|streamed| - 1].offset == o {
      j := |streamed| - 1;
    } else {
      j := SlotAtIsLast(streamed[..|streamed| - 1], o, i);
    }
  }

  lemma {:induction false} LastIsRegistered(streamed: seq<StreamedSlot>, j: nat)
    requires j < |streamed| && LastAtOffset(streamed, j)
    ensures SlotAt(streamed, streamed[j].offset) == Some(streamed[j].index)
    decreases |streamed|
  {
    if j < |streamed| - 1 {
      var init := streamed[..|streamed| - 1];
      assert LastAtOffset(init, j);
      LastIsRegistered(init, j);
    }
  }

  /** Every slot a plan's checkpoint names is registered at some offset. */
  lemma CheckpointNamesRegistered(t: SeekTables, streamed: seq<StreamedSlot>, c: Checkpoint, i: nat) returns (o: int)
    requires c in PlanOf(Some(t), streamed).checkpoints && i in c.samples
    ensures SlotAt(streamed, o) == Some(i)
  {
    var f := (x: int) => SlotAt(streamed, x);
    var p := FilterMap(t.checkpoints, Resolver(streamed));
    var offs := t.segment0Offsets;
    if c in p {
      var j := ResolvedFrom(t.checkpoints, streamed, c);
      offs := t.checkpoints[j].residentOffsets;
    }
    assert i in FilterMap(offs, f);
    FilterMapMembers(offs, f);
    o :| o in offs && f(o) == Some(i);
  }

  /** So is every slot it requires. */
  lemma PlanNamesRegistered(t: SeekTables, streamed: seq<StreamedSlot>, order: nat, i: nat) returns (o: int)
    requires i in RequiredAt(PlanOf(Some(t), streamed), order)
    ensures SlotAt(streamed, o) == Some(i)
  {
    hide PlanOf, SlotAt;
    var plan := PlanOf(Some(t), streamed);
    var cps := SortBy(plan.checkpoints, ByOrder());
    SortByKeepsMembers(plan.checkpoints, ByOrder());
    var k :| 0 <= k < |cps| && i in cps[k].samples;
    assert cps[k] in plan.checkpoints;
    o := CheckpointNamesRegistered(t, streamed, cps[k], i);
  }

  /**
   * Slot by slot: a streamed slot that can sound within reach of an order is required there exactly when
   * no later streamed slot shares its offset. With pairwise distinct offsets that is every slot.
   */
  lemma SlotCoveredIffLastAtOffset(
    m: SimModel, t: SeekTables, streamed: seq<StreamedSlot>, p: nat, p2: nat, k: nat, ch: nat, s: int, j: nat)
    requires ModelOk(m) && TablesOk(m, t) && DistinctIndices(streamed)
    requires p < |m.orderPats| && WithinReach(|m.orderPats|, p, p2)
    requires p2 < |m.orderPats| && k <= |EventsAt(m, p2)|
    requires Sounding(Played(m, p2, k), ch) == Some(s)
    requires j < |streamed| && streamed[j].offset == m.offsetOf(s)
    ensures streamed[j].index in RequiredAt(PlanOf(Some(t), streamed), m.orderPats[p].order)
      <==> LastAtOffset(streamed, j)
  {
    hide RequiredAt, Sounding, Played, PlanOf, SlotAt, WithinReach;
    if LastAtOffset(streamed, j) {
      LastIsRegistered(streamed, j);
      FenceLooksAhead(m, t, streamed, p, p2, k, ch, s, streamed[j].index);
    }
    if streamed[j].index in RequiredAt(PlanOf(Some(t), streamed), m.orderPats[p].order) {
      var o := PlanNamesRegistered(t, streamed, m.orderPats[p].order, streamed[j].index);
      var l := SlotAtIsLast(streamed, o, streamed[j].index);
      assert l == j;
    }
  }

  /** A song of one note whose samples share an offset, and two slots streamed from there. */
  function SharedOffsetSong(): SimModel {
    SimModel([OrderPat(0, 0)], 6, 125, 1, (pat: nat) => Some(Pattern(64, [SimEvent(0, 0, 0, true, false, 0, 0)])),
             (s: int) => if s >= 0 then 100 else -1)
  }

  lemma SharedOffsetSongSounds()
    ensures ModelOk(SharedOffsetSong()) && SharedOffsetSong().offsetOf(0) == 100 && |SharedOffsetSong().orderPats| == 1
    ensures |EventsAt(SharedOffsetSong(), 0)| == 1 && Sounding(Played(SharedOffsetSong(), 0, 1), 0) == Some(0)
  {
    var m, note := SharedOffsetSong(), SimEvent(0, 0, 0, true, false, 0, 0);
    assert EventsAt(m, 0) == [note] && Played(m, 0, 1) == [note];
    assert LastNamed([note], 0) == 0;
  }

  function SharedSlots(): seq<StreamedSlot> {
    [StreamedSlot(100, 1), StreamedSlot(100, 2)]
  }

  lemma SharedSlotsAre()
    ensures |SharedSlots()| == 2 && SharedSlots()[0] == StreamedSlot(100, 1) && SharedSlots()[1] == StreamedSlot(100, 2)
    ensures DistinctIndices(SharedSlots()) && !LastAtOffset(SharedSlots(), 0) && LastAtOffset(SharedSlots(), 1)
  {
    assert SharedSlots()[1].offset == SharedSlots()[0].offset;
  }

  /** Sample 0 sounds, slot 1 is streamed from where it lies, and slot 1 is not required: slot 2 is. */
  lemma EarlierSlotIsNotRequired(t: SeekTables)
    requires TablesOk(SharedOffsetSong(), t)
    ensures ModelOk(SharedOffsetSong()) && SharedOffsetSong().offsetOf(0) == 100
    ensures |EventsAt(SharedOffsetSong(), 0)| == 1 && Sounding(Played(SharedOffsetSong(), 0, 1), 0) == Some(0)
    ensures 1 !in RequiredAt(PlanOf(Some(t), SharedSlots()), 0) && 2 in RequiredAt(PlanOf(Some(t), SharedSlots()), 0)
  {
    SharedOffsetSongSounds();
    SharedSlotsAre();
    hide ModelOk, TablesOk, Sounding, Played, EventsAt, PlanOf, RequiredAt, LastAtOffset, SharedSlots;
    NextIsWithinReach(1, 0);
    SlotCoveredIffLastAtOffset(SharedOffsetSong(), t, SharedSlots(), 0, 0, 1, 0, 0, 0);
    SlotCoveredIffLastAtOffset(SharedOffsetSong(), t, SharedSlots(), 0, 0, 1, 0, 0, 1);
  }

  // ---- The segment-0 fallback ----

  /** The opening checkpoint already covers segment 0, so the fallback never fires on simulated tables. */
  lemma OpeningFallbackIsIdle(m: SimModel, t: SeekTables, streamed: seq<StreamedSlot>)
    requires ModelOk(m) && TablesOk(m, t)
    ensures PlanOf(Some(t), streamed).checkpoints == FilterMap(t.checkpoints, Resolver(streamed))
  {
    var seg0 := ToSlots(streamed, t.segment0Offsets);
    if seg0 != [] {
      var f := (x: int) => SlotAt(streamed, x);
      FilterMapMembers(t.segment0Offsets, f);
      assert seg0[0] in seg0;
      var o :| o in t.segment0Offsets && f(o) == Some(seg0[0]);
      OpeningIsCovered(m, t, o);
      OffsetBecomesSlot(streamed, t.checkpoints[0].residentOffsets, o, seg0[0]);
      FilterMapPosition(t.checkpoints, Resolver(streamed), 0);
    }
  }

  lemma OpeningIsCovered(m: SimModel, t: SeekTables, o: int)
    requires ModelOk(m) && TablesOk(m, t) && o in t.segment0Offsets
    ensures t.checkpoints != [] && o in t.checkpoints[0].residentOffsets
  {
    hide TriggeredOffsets, HeldOffsets, Stride, ResidentAt;
    assert m.orderPats != [] && o in Segment0(m) by { EmptyOpening(m, o); }
    OpeningResidents(m);
    assert Position(0, Stride(|m.orderPats|)) == 0;
    assert CheckpointOk(m, 0, t.checkpoints[0]);
  }

  lemma EmptyOpening(m: SimModel, o: int)
    requires ModelOk(m)
    ensures m.orderPats == [] ==> o !in Segment0(m)
  {
  }

  lemma OpeningResidents(m: SimModel)
    requires ModelOk(m) && m.orderPats != []
    ensures Segment0(m) <= ResidentAt(m, 0)
  {
    hide TriggeredOffsets, HeldOffsets, Stride, EventsAt, SpanEvents, VoicesAt;
    var n, next := m.numChannels, Min(Stride(|m.orderPats|), |m.orderPats|);
    SpanStep(m, 0, next);
    SpanInChannels(m, 0, next);
    SpanInChannels(m, 1, next);
    EventsInChannels(m, 0);
    NothingPlayed(m);
    TriggerAppend(m, EventsAt(m, 0), SpanEvents(m, 1, next), Silent(n).latch);
  }
}
