/**
 * The fence waits for what can sound and for nothing else. Checkpoints, segment 0 and the required sets are
 * told exactly, in terms of the play order alone.
 */
module FenceExact {
  import opened Basics
  import opened Sorting
  import opened Plan
  import opened PlanLaws
  import opened Seek
  import opened FenceCoverage

  // ---- What a stretch of the song needs ----

  /** A sample at offset `o` can sound at some event of a position in [lo, hi). */
  ghost predicate SoundsIn(m: SimModel, lo: nat, hi: nat, o: int) {
    o >= 0 && exists p: nat, j: nat, ch: nat, s: int :: SoundsAt(m, lo, hi, o, p, j, ch, s)
  }

  ghost predicate SoundsAt(m: SimModel, lo: nat, hi: nat, o: int, p: nat, j: nat, ch: nat, s: int) {
    && lo <= p < hi && p < |m.orderPats| && j <= |EventsAt(m, p)|
    && Sounding(Played(m, p, j), ch) == Some(s) && m.offsetOf(s) == o
  }

  /** An event of a span lies at an event of one of its positions. */
  lemma {:induction false} SpanPosition(m: SimModel, lo: nat, hi: nat, i: nat) returns (p: nat, k: nat)
    requires lo <= hi <= |m.orderPats| && i < |SpanEvents(m, lo, hi)|
    ensures lo <= p < hi && k < |EventsAt(m, p)|
    ensures SpanEvents(m, lo, hi)[..i + 1] == SpanEvents(m, lo, p) + EventsAt(m, p)[..k + 1]
    decreases hi - lo
  {
    hide EventsAt;
    var before := SpanEvents(m, lo, hi - 1);
    if i < |before| {
      p, k := SpanPosition(m, lo, hi - 1, i);
      assert SpanEvents(m, lo, hi)[..i + 1] == before[..i + 1];
    } else {
      p, k := hi - 1, i - |before|;
      assert SpanEvents(m, lo, hi)[..i + 1] == before + EventsAt(m, p)[..k + 1];
    }
  }

  /** The event that started a listed sample. */
  lemma {:induction false} TriggerOf(m: SimModel, events: seq<SimEvent>, latch: seq<int>, o: int) returns (i: nat)
    requires InChannels(events, |latch|) && o in TriggeredOffsets(m, events, latch)
    ensures i < |events| && events[i].hasNote && o >= 0 && InChannels(events[..i], |latch|)
    ensures m.offsetOf(Triggered(events[i], LatchAll(events[..i], latch))) == o
    decreases |events|
  {
    var init, e := events[..|events| - 1], events[|events| - 1];
    if o in TriggeredOffsets(m, init, latch) {
      i := TriggerOf(m, init, latch, o);
      assert init[..i] == events[..i];
    } else {
      i := |events| - 1;
    }
  }

  /** A note started sounds. */
  lemma StartedSounds(m: SimModel, before: seq<SimEvent>, init: seq<SimEvent>, e: SimEvent, latch: seq<int>)
    requires ModelOk(m) && InChannels(init + [e], |latch|) && InChannels(init, |latch|) && e.ch < |latch|
    requires latch[e.ch] == LastNamed(before, e.ch) && e.hasNote
    requires m.offsetOf(Triggered(e, LatchAll(init, latch))) >= 0
    ensures Sounding(before + (init + [e]), e.ch) == Some(Triggered(e, LatchAll(init, latch)))
  {
    hide PatternOk, LatchAll;
    LatchIsLastNamed(before, init, latch, e.ch);
    var all := before + (init + [e]);
    assert all[..|all| - 1] == before + init && all[|all| - 1] == e;
  }

  /** What a checkpoint lists sounds in its span. */
  lemma ListedSounds(m: SimModel, vi: nat, o: int)
    requires ModelOk(m) && vi < |m.orderPats| && o in ResidentAt(m, vi)
    ensures SoundsIn(m, vi, Min(vi + Stride(|m.orderPats|), |m.orderPats|), o)
  {
    hide Stride, TriggeredOffsets, Sounding, SpanEvents, ApplyAll, History;
    var next := Min(vi + Stride(|m.orderPats|), |m.orderPats|);
    HistoryInChannels(m, vi);
    SpanInChannels(m, vi, next);
    var v := VoicesAt(m, vi);
    if o in HeldOffsets(m, v) {
      var c: nat :| c < |v.held| && v.held[c] >= 0 && m.offsetOf(v.held[c]) >= 0 && o == m.offsetOf(v.held[c]);
      SimulationIsRight(History(m, vi), m.numChannels, c);
      assert Played(m, vi, 0) == History(m, vi);
      assert SoundsAt(m, vi, next, o, vi, 0, c, v.held[c]);
    } else {
      LatchesOnEntry(m, vi);
      TriggeredSounds(m, vi, next, v.latch, o);
    }
  }

  lemma LatchesOnEntry(m: SimModel, vi: nat)
    requires ModelOk(m) && vi <= |m.orderPats|
    ensures forall c: nat :: c < m.numChannels ==> VoicesAt(m, vi).latch[c] == LastNamed(History(m, vi), c)
  {
    hide Sounding, History, ApplyAll;
    HistoryInChannels(m, vi);
    forall c: nat | c < m.numChannels
      ensures VoicesAt(m, vi).latch[c] == LastNamed(History(m, vi), c)
    {
      SimulationIsRight(History(m, vi), m.numChannels, c);
    }
  }

  lemma TriggeredSounds(m: SimModel, lo: nat, hi: nat, latch: seq<int>, o: int)
    requires ModelOk(m) && lo <= hi <= |m.orderPats| && |latch| == m.numChannels
    requires InChannels(SpanEvents(m, lo, hi), |latch|) && o in TriggeredOffsets(m, SpanEvents(m, lo, hi), latch)
    requires forall c: nat :: c < |latch| ==> latch[c] == LastNamed(History(m, lo), c)
    ensures SoundsIn(m, lo, hi, o)
  {
    hide TriggeredOffsets, Sounding, LatchAll, ModelOk, Triggered, History, SpanEvents, LastNamed;
    var span := SpanEvents(m, lo, hi);
    var i := TriggerOf(m, span, latch, o);
    var p, k := SpanPosition(m, lo, hi, i);
    var init, e := span[..i], span[i];
    assert span[..i + 1] == init + [e];
    assert InChannels(init + [e], |latch|);
    StartedSounds(m, History(m, lo), init, e, latch);
    PlayedIs(m, lo, p, k + 1);
    assert SoundsAt(m, lo, hi, o, p, k + 1, e.ch, Triggered(e, LatchAll(init, latch)));
  }

  lemma PlayedIs(m: SimModel, lo: nat, p: nat, k: nat)
    requires lo <= p < |m.orderPats| && k <= |EventsAt(m, p)|
    ensures Played(m, p, k) == History(m, lo) + (SpanEvents(m, lo, p) + EventsAt(m, p)[..k])
  {
    hide History, SpanEvents, EventsAt;
    HistorySplits(m, lo, p);
  }

  lemma SoundingIsListed(m: SimModel, vi: nat, o: int)
    requires ModelOk(m) && vi < |m.orderPats|
    requires SoundsIn(m, vi, Min(vi + Stride(|m.orderPats|), |m.orderPats|), o)
    ensures o in ResidentAt(m, vi)
  {
    hide ModelOk, Sounding, Played, Stride, ResidentAt, EventsAt;
    var next := Min(vi + Stride(|m.orderPats|), |m.orderPats|);
    var p: nat, j: nat, ch: nat, s: int :| SoundsAt(m, vi, next, o, p, j, ch, s);
    PlayedInChannels(m, p, j);
    SoundingInChannels(Played(m, p, j), m.numChannels, ch);
    CheckpointCoversSpan(m, vi, p, j, ch, s);
  }

  /** The positions a checkpoint speaks for. */
  ghost predicate SpanSounds(m: SimModel, k: nat, o: int) {
    var n := |m.orderPats|;
    SoundsIn(m, Position(k, Stride(n)), Min(Position(k, Stride(n)) + Stride(n), n), o)
  }

  /** A checkpoint lists exactly the offsets that can sound at an event of its span. */
  lemma CheckpointIsExact(m: SimModel, t: SeekTables, k: nat, o: int)
    requires ModelOk(m) && TablesOk(m, t) && k < |t.checkpoints|
    ensures o in t.checkpoints[k].residentOffsets <==> SpanSounds(m, k, o)
  {
    hide ResidentAt, SoundsIn, TimingMap, Segment0, Stride;
    assert CheckpointOk(m, k, t.checkpoints[k]);
    hide ModelOk;
    var vi := Position(k, Stride(|m.orderPats|));
    if o in ResidentAt(m, vi) {
      ListedSounds(m, vi, o);
    }
    if SpanSounds(m, k, o) {
      SoundingIsListed(m, vi, o);
    }
  }

  lemma OpeningLatches(n: nat)
    ensures |Silent(n).latch| == n && forall c: nat :: c < n ==> Silent(n).latch[c] == LastNamed([], c)
  {
  }

  lemma FirstSpan(m: SimModel)
    requires m.orderPats != []
    ensures SpanEvents(m, 0, 1) == EventsAt(m, 0) && History(m, 0) == []
  {
    assert SpanEvents(m, 0, 0) == [];
  }

  /** And segment 0 exactly those of the first played order. */
  lemma Segment0IsExact(m: SimModel, t: SeekTables, o: int)
    requires ModelOk(m) && TablesOk(m, t)
    ensures o in t.segment0Offsets <==> SoundsIn(m, 0, Min(1, |m.orderPats|), o)
  {
    hide ResidentAt, TimingMap, TriggeredOffsets, Sounding, SpanEvents, History, PatternOk;
    if m.orderPats != [] {
      FirstSpan(m);
      EventsInChannels(m, 0);
      OpeningLatches(m.numChannels);
      var latch := Silent(m.numChannels).latch;
      if o in Segment0(m) {
        TriggeredSounds(m, 0, 1, latch, o);
      }
      if SoundsIn(m, 0, 1, o) {
        var p: nat, j: nat, ch: nat, s: int :| SoundsAt(m, 0, 1, o, p, j, ch, s);
        OpeningStarts(m, j, ch, s);
      }
    }
  }

  /** What sounds in the first order was started in it. */
  lemma OpeningStarts(m: SimModel, j: nat, ch: nat, s: int)
    requires ModelOk(m) && m.orderPats != [] && j <= |EventsAt(m, 0)|
    requires Sounding(Played(m, 0, j), ch) == Some(s) && m.offsetOf(s) >= 0
    ensures m.offsetOf(s) in Segment0(m)
  {
    hide TriggeredOffsets, Sounding, LatchAll, LastNamed, ModelOk;
    FirstSpan(m);
    EventsInChannels(m, 0);
    PlayedInChannels(m, 0, j);
    SoundingInChannels(Played(m, 0, j), m.numChannels, ch);
    OpeningLatches(m.numChannels);
    var events, latch := EventsAt(m, 0), Silent(m.numChannels).latch;
    assert Played(m, 0, j) == [] + events[..j] && events == events[..j] + events[j..];
    PrefixInChannels(events[..j], events[j..], m.numChannels);
    SoundingComesFrom(m, [], events[..j], latch, ch, s);
    NothingSounds(ch);
    TriggerAppend(m, events[..j], events[j..], latch);
  }

  lemma NothingSounds(ch: nat)
    ensures Sounding([], ch) == None
  {
  }

  // ---- The required set ----

  ghost predicate Ascend(cps: seq<Checkpoint>) {
    forall j, k :: 0 <= j < k < |cps| ==> cps[j].order < cps[k].order
  }

  /** Of checkpoints in order: the last one at or before `order` and the first one after it. */
  lemma RequiredSortedIff(cps: seq<Checkpoint>, order: nat, s: nat)
    requires Ascend(cps)
    ensures s in RequiredSorted(cps, order) <==> exists c :: c in cps && s in c.samples && NextTo(cps, c.order, order)
  {
    hide Floor;
    var f := Floor(cps, order);
    forall k | 0 <= k < |cps|
      ensures NextTo(cps, cps[k].order, order) <==> k == f || k == f + 1
    {
      NextToIs(cps, order, k);
    }
    if s in RequiredSorted(cps, order) {
      var k :| Max(f, 0) <= k <= Min(Max(f + 1, 0), |cps| - 1) && s in cps[k].samples;
      assert cps[k] in cps;
    }
    if c :| c in cps && s in c.samples && NextTo(cps, c.order, order) {
      var k :| 0 <= k < |cps| && cps[k] == c;
      assert s in Samples(cps, Max(f, 0), Min(Max(f + 1, 0), |cps| - 1));
    }
  }

  /** No checkpoint lies between order `x` and `order`, `x` itself aside. */
  ghost predicate NextTo(cps: seq<Checkpoint>, x: nat, order: nat) {
    forall c :: c in cps ==> !(x < c.order <= order) && !(order < c.order < x)
  }

  lemma NextToIs(cps: seq<Checkpoint>, order: nat, k: nat)
    requires Ascend(cps)
    requires k < |cps|
    ensures NextTo(cps, cps[k].order, order) <==> k == Floor(cps, order) || k == Floor(cps, order) + 1
  {
    var f := Floor(cps, order);
    hide Floor;
    if k < f {
      assert cps[f] in cps;
    } else if k > f + 1 {
      assert cps[f + 1] in cps;
    } else {
      forall c | c in cps
        ensures !(cps[k].order < c.order <= order) && !(order < c.order < cps[k].order)
      {
        var j :| 0 <= j < |cps| && cps[j] == c;
      }
    }
  }

  /** The checkpoints of a plan that name something streamed. */
  ghost predicate NamesStreamed(c: Checkpoint, streamed: set<nat>) { exists s :: s in c.samples && s in streamed }

  /** No checkpoint that names something streamed lies between order `x` and `order`. */
  ghost predicate NextStreamed(cps: seq<Checkpoint>, streamed: set<nat>, x: nat, order: nat) {
    forall c :: c in cps && NamesStreamed(c, streamed) ==> !(x < c.order <= order) && !(order < c.order < x)
  }

  lemma {:induction false} PrunedAscend(cps: seq<Checkpoint>, streamed: set<nat>)
    requires Ascend(cps)
    ensures Ascend(FilterMap(cps, Pruner(streamed)))
    decreases |cps|
  {
    hide KeepStreamed;
    if cps != [] {
      AscendTail(cps);
      PrunedAscend(cps[1..], streamed);
      var rest := FilterMap(cps[1..], Pruner(streamed));
      forall q | q in rest
        ensures cps[0].order < q.order
      {
        FilterMapMembers(cps[1..], Pruner(streamed));
        var c :| c in cps[1..] && Pruner(streamed)(c) == Some(q);
      }
      var first := PruneCheckpoint(cps[0], streamed);
      if first.Some? {
        AscendCons(first.value, rest);
      } else {
        assert [] + rest == rest;
      }
    }
  }

  lemma AscendTail(cps: seq<Checkpoint>)
    requires Ascend(cps) && cps != []
    ensures Ascend(cps[1..]) && forall c :: c in cps[1..] ==> cps[0].order < c.order
  {
    forall c | c in cps[1..]
      ensures cps[0].order < c.order
    {
      var j :| 0 <= j < |cps[1..]| && cps[1..][j] == c;
      assert cps[j + 1] == c;
    }
  }

  lemma AscendCons(c: Checkpoint, rest: seq<Checkpoint>)
    requires Ascend(rest) && forall q :: q in rest ==> c.order < q.order
    ensures Ascend([c] + rest)
  {
  }

  lemma PrunedIs(c: Checkpoint, streamed: set<nat>)
    ensures var q := PruneCheckpoint(c, streamed);
      && (q.Some? <==> NamesStreamed(c, streamed))
      && (q.Some? ==> q.value.order == c.order && forall s :: s in q.value.samples <==> s in c.samples && s in streamed)
  {
    KeepStreamedMembers(c.samples, streamed);
    var kept := KeepStreamed(c.samples, streamed);
    if kept != [] {
      assert kept[0] in kept;
    }
  }

  /**
   * What pruning leaves required: the streamed samples of the last checkpoint at or before the order that
   * still names one, and of the first such after it. Emptied checkpoints are out of the way.
   */
  lemma PrunedRequiredIff(cps: seq<Checkpoint>, streamed: set<nat>, order: nat, s: nat)
    requires Ascend(cps)
    ensures s in RequiredSorted(FilterMap(cps, Pruner(streamed)), order) <==>
      exists c :: c in cps && s in c.samples && s in streamed && NextStreamed(cps, streamed, c.order, order)
  {
    hide FilterMap, RequiredSorted, PruneCheckpoint;
    var p := FilterMap(cps, Pruner(streamed));
    PrunedAscend(cps, streamed);
    RequiredSortedIff(p, order, s);
    FilterMapMembers(cps, Pruner(streamed));
    forall x: nat
      ensures NextTo(p, x, order) <==> NextStreamed(cps, streamed, x, order)
    {
      NextAlike(cps, streamed, x, order);
    }
    if q :| q in p && s in q.samples && NextTo(p, q.order, order) {
      var c :| c in cps && Pruner(streamed)(c) == Some(q);
      PrunedIs(c, streamed);
    }
    if c :| c in cps && s in c.samples && s in streamed && NextStreamed(cps, streamed, c.order, order) {
      PrunedIs(c, streamed);
      assert NamesStreamed(c, streamed);
      assert Pruner(streamed)(c) == PruneCheckpoint(c, streamed);
    }
  }

  lemma NextAlike(cps: seq<Checkpoint>, streamed: set<nat>, x: nat, order: nat)
    ensures NextTo(FilterMap(cps, Pruner(streamed)), x, order) <==> NextStreamed(cps, streamed, x, order)
  {
    hide FilterMap, PruneCheckpoint, NamesStreamed;
    var p := FilterMap(cps, Pruner(streamed));
    FilterMapMembers(cps, Pruner(streamed));
    forall c | c in cps
      ensures NamesStreamed(c, streamed) ==> exists q :: q in p && q.order == c.order
    {
      PrunedIs(c, streamed);
      assert Pruner(streamed)(c) == PruneCheckpoint(c, streamed);
    }
    forall q | q in p
      ensures exists c :: c in cps && NamesStreamed(c, streamed) && q.order == c.order
    {
      var c :| c in cps && Pruner(streamed)(c) == Some(q);
      PrunedIs(c, streamed);
    }
  }

  /** A streamed slot can sound in the span of checkpoint `k`. */
  ghost predicate SlotSounds(m: SimModel, streamed: seq<StreamedSlot>, k: nat, i: nat) {
    exists o: int :: SlotAt(streamed, o) == Some(i) && SpanSounds(m, k, o)
  }

  lemma ResolvesIff(m: SimModel, t: SeekTables, streamed: seq<StreamedSlot>, k: nat, i: nat)
    requires ModelOk(m) && TablesOk(m, t) && k < |t.checkpoints|
    ensures i in ToSlots(streamed, t.checkpoints[k].residentOffsets) <==> SlotSounds(m, streamed, k, i)
  {
    hide ModelOk, TablesOk, SpanSounds, FilterMap, SlotAt;
    var offs, f := t.checkpoints[k].residentOffsets, (x: int) => SlotAt(streamed, x);
    FilterMapMembers(offs, f);
    if i in ToSlots(streamed, offs) {
      var o :| o in offs && f(o) == Some(i);
      CheckpointIsExact(m, t, k, o);
    }
    if SlotSounds(m, streamed, k, i) {
      var o: int :| SlotAt(streamed, o) == Some(i) && SpanSounds(m, k, o);
      CheckpointIsExact(m, t, k, o);
      assert o in offs && f(o) == Some(i);
    }
  }

  /** No streamed slot can sound in the spans strictly between `k` and `q`, or in `q` itself when `k` is before it. */
  ghost predicate SilentBetween(m: SimModel, streamed: seq<StreamedSlot>, k: nat, q: nat) {
    forall x: nat, i: nat :: (k < x <= q || q < x < k) ==> !SlotSounds(m, streamed, x, i)
  }

  /** The planned checkpoints are those of the spans in which something streamed can sound. */
  lemma PlannedIff(m: SimModel, t: SeekTables, streamed: seq<StreamedSlot>, c: Checkpoint)
    requires ModelOk(m) && TablesOk(m, t) && c in PlanOf(Some(t), streamed).checkpoints
    ensures exists k: nat :: k < |t.checkpoints| && Resolve(streamed, t.checkpoints[k]) == Some(c)
  {
    hide TablesOk, ModelOk, FilterMap, Resolve;
    OpeningFallbackIsIdle(m, t, streamed);
    var k := ResolvedFrom(t.checkpoints, streamed, c);
  }

  lemma SoundingIsPlanned(m: SimModel, t: SeekTables, streamed: seq<StreamedSlot>, k: nat, i: nat)
    requires ModelOk(m) && TablesOk(m, t) && k < |t.checkpoints| && SlotSounds(m, streamed, k, i)
    ensures Resolve(streamed, t.checkpoints[k]).Some?
    ensures var c := Resolve(streamed, t.checkpoints[k]).value;
      c in PlanOf(Some(t), streamed).checkpoints && i in c.samples && c.order == t.checkpoints[k].order
  {
    hide TablesOk, ModelOk, SlotSounds, ToSlots, FilterMap;
    ResolvesIff(m, t, streamed, k, i);
    OpeningFallbackIsIdle(m, t, streamed);
    FilterMapMembers(t.checkpoints, Resolver(streamed));
    assert Resolver(streamed)(t.checkpoints[k]) == Resolve(streamed, t.checkpoints[k]);
  }

  lemma PlanAscends(m: SimModel, t: SeekTables, streamed: seq<StreamedSlot>)
    requires ModelOk(m) && TablesOk(m, t)
    ensures var cps := PlanOf(Some(t), streamed).checkpoints;
      SortBy(cps, ByOrder()) == cps && Ascend(cps)
  {
    hide TablesOk, ModelOk, FilterMap, SortBy;
    OpeningFallbackIsIdle(m, t, streamed);
    TablesAscend(m, t);
    ResolvedAscend(t.checkpoints, streamed);
    ResolvedSorted(t.checkpoints, streamed);
    SortOfSorted(FilterMap(t.checkpoints, Resolver(streamed)), ByOrder());
  }

  lemma {:induction false} ResolvedAscend(cps: seq<SeekCheckpoint>, streamed: seq<StreamedSlot>)
    requires OrdersAscend(cps)
    ensures Ascend(FilterMap(cps, Resolver(streamed)))
    decreases |cps|
  {
    hide ToSlots;
    if cps != [] {
      ResolvedAscend(cps[1..], streamed);
      var rest := FilterMap(cps[1..], Resolver(streamed));
      forall k | 0 <= k < |rest|
        ensures cps[0].order < rest[k].order
      {
        var j := ResolvedFrom(cps[1..], streamed, rest[k]);
        assert cps[1..][j] == cps[j + 1];
      }
    }
  }

  /**
   * The required set, exactly. At an order in the span of checkpoint `q` a slot is required if and only if
   * it can sound in the last span up to `q` in which anything streamed can, or in the first one after it.
   */
  lemma RequiredIsExact(m: SimModel, t: SeekTables, streamed: seq<StreamedSlot>, p: nat, q: nat, i: nat)
    requires ModelOk(m) && TablesOk(m, t) && p < |m.orderPats| && InSpan(|m.orderPats|, q, p)
    ensures i in RequiredAt(PlanOf(Some(t), streamed), m.orderPats[p].order) <==>
      exists k: nat :: k < |t.checkpoints| && SlotSounds(m, streamed, k, i) && SilentBetween(m, streamed, k, q)
  {
    hide ModelOk, TablesOk, PlanOf, SortBy, SlotSounds, SilentBetween, RequiredSorted, Resolve, InSpan;
    var order, cps := m.orderPats[p].order, PlanOf(Some(t), streamed).checkpoints;
    PlanAscends(m, t, streamed);
    RequiredSortedIff(cps, order, i);
    if i in RequiredAt(PlanOf(Some(t), streamed), order) {
      var c :| c in cps && i in c.samples && NextTo(cps, c.order, order);
      PlannedIff(m, t, streamed, c);
      var k: nat :| k < |t.checkpoints| && Resolve(streamed, t.checkpoints[k]) == Some(c);
      ResolvedNames(m, t, streamed, k, c, i);
      NextIsSilent(m, t, streamed, p, q, k);
    }
    if k: nat :| k < |t.checkpoints| && SlotSounds(m, streamed, k, i) && SilentBetween(m, streamed, k, q) {
      SoundingIsPlanned(m, t, streamed, k, i);
      SilentIsNext(m, t, streamed, p, q, k);
    }
  }

  lemma ResolvedNames(m: SimModel, t: SeekTables, streamed: seq<StreamedSlot>, k: nat, c: Checkpoint, i: nat)
    requires ModelOk(m) && TablesOk(m, t) && k < |t.checkpoints|
    requires Resolve(streamed, t.checkpoints[k]) == Some(c) && i in c.samples
    ensures SlotSounds(m, streamed, k, i) && c.order == t.checkpoints[k].order
  {
    hide ModelOk, TablesOk, ToSlots, SlotSounds;
    ResolvesIff(m, t, streamed, k, i);
  }

  /** Span `x` comes by order after the span of `p` exactly when it comes after it. */
  lemma SpanBefore(m: SimModel, t: SeekTables, p: nat, q: nat, x: nat)
    requires ModelOk(m) && TablesOk(m, t) && p < |m.orderPats| && InSpan(|m.orderPats|, q, p) && x < |t.checkpoints|
    ensures q < |t.checkpoints| && (t.checkpoints[x].order <= m.orderPats[p].order <==> x <= q)
  {
    hide ModelOk, TablesOk, InSpan;
    TablesAscend(m, t);
    SpanIsListed(m, t, q, p);
    SpanOrders(m, t, q, p);
  }

  lemma NextIsSilent(m: SimModel, t: SeekTables, streamed: seq<StreamedSlot>, p: nat, q: nat, k: nat)
    requires ModelOk(m) && TablesOk(m, t) && p < |m.orderPats| && InSpan(|m.orderPats|, q, p) && k < |t.checkpoints|
    requires NextTo(PlanOf(Some(t), streamed).checkpoints, t.checkpoints[k].order, m.orderPats[p].order)
    ensures SilentBetween(m, streamed, k, q)
  {
    hide ModelOk, TablesOk, InSpan, PlanOf, SlotSounds, Resolve;
    TablesAscend(m, t);
    SpanIsListed(m, t, q, p);
    forall x: nat, i: nat | k < x <= q || q < x < k
      ensures !SlotSounds(m, streamed, x, i)
    {
      if SlotSounds(m, streamed, x, i) {
        SoundingIsPlanned(m, t, streamed, x, i);
        SpanBefore(m, t, p, q, x);
        assert false;
      }
    }
  }

  lemma SilentIsNext(m: SimModel, t: SeekTables, streamed: seq<StreamedSlot>, p: nat, q: nat, k: nat)
    requires ModelOk(m) && TablesOk(m, t) && p < |m.orderPats| && InSpan(|m.orderPats|, q, p) && k < |t.checkpoints|
    requires SilentBetween(m, streamed, k, q)
    ensures NextTo(PlanOf(Some(t), streamed).checkpoints, t.checkpoints[k].order, m.orderPats[p].order)
  {
    hide ModelOk, TablesOk, InSpan, PlanOf, SlotSounds, Resolve;
    TablesAscend(m, t);
    forall c | c in PlanOf(Some(t), streamed).checkpoints
      ensures !(t.checkpoints[k].order < c.order <= m.orderPats[p].order) && !(m.orderPats[p].order < c.order < t.checkpoints[k].order)
    {
      PlannedIff(m, t, streamed, c);
      var x: nat :| x < |t.checkpoints| && Resolve(streamed, t.checkpoints[x]) == Some(c);
      PlannedNames(t, streamed, x, c);
      ResolvedNames(m, t, streamed, x, c, c.samples[0]);
      SpanBefore(m, t, p, q, x);
    }
  }

  lemma PlannedNames(t: SeekTables, streamed: seq<StreamedSlot>, x: nat, c: Checkpoint)
    requires x < |t.checkpoints| && Resolve(streamed, t.checkpoints[x]) == Some(c)
    ensures c.samples != []
  {
  }

  // ---- How many checkpoints ----

  /** A stride is the least that keeps the checkpoints to 512. */
  lemma StrideIsLeast(n: nat, stride: nat)
    requires stride > 0
    ensures stride >= Stride(n) <==> n <= 512 * stride
  {
  }

  /** Up to 512 played orders have a checkpoint each; longer songs have at most 512 in all. */
  lemma CheckpointsAreCapped(m: SimModel, t: SeekTables)
    requires ModelOk(m) && TablesOk(m, t)
    ensures |t.checkpoints| <= 512
    ensures |m.orderPats| <= 512 ==> |t.checkpoints| == |m.orderPats|
  {
    hide ResidentAt, Lists, TimingMap, Segment0, Stride;
    var n, c := |m.orderPats|, |t.checkpoints|;
    var stride := Stride(n);
    StrideIsLeast(n, stride);
    StrideIsLeast(n, 1);
    if c > 0 {
      assert CheckpointOk(m, c - 1, t.checkpoints[c - 1]);
      PositionIs(c - 1, stride);
      if c > 512 {
        TooManyStrides(c - 1, stride);
      }
    }
    PositionIs(c, stride);
  }

  lemma {:induction false} PositionIs(k: nat, stride: nat)
    ensures Position(k, stride) == k * stride
  {
    if k > 0 {
      PositionIs(k - 1, stride);
      assert k * stride == (k - 1) * stride + stride;
    }
  }

  lemma TooManyStrides(k: nat, stride: nat)
    requires k >= 512
    ensures k * stride >= 512 * stride
  {
  }
}
