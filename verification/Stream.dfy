/**
 * The streaming scheduler: the warm batch the fence needs first, then one sample at a time by
 * distance from a playhead that may be anywhere at every step.
 */
module Stream {
  import opened Basics
  import opened Sequences
  import opened Plan
  import opened PlanLaws

  const PASSED_BASE: nat := 1_000_000_000
  const UNPLANNED_KEY: nat := 0xFFFF_FFFF_FFFF_FFFE
  const U32_MAX: nat := 0xFFFF_FFFF

  // ---- The priority key ----

  /** The least order at or after the playhead. */
  function NearestFrom(orders: seq<nat>, ph: nat): (r: Option<nat>)
    ensures r.Some? ==> r.value in orders && r.value >= ph
    ensures forall o :: o in orders && o >= ph ==> r.Some? && r.value <= o
  {
    if orders == [] then None
    else
      assert orders == [orders[0]] + orders[1..];
      var rest := NearestFrom(orders[1..], ph);
      if orders[0] >= ph && (rest.None? || orders[0] < rest.value) then Some(orders[0]) else rest
  }

  function Latest(orders: seq<nat>): (r: nat)
    requires orders != []
    ensures r in orders && forall o :: o in orders ==> o <= r
  {
    assert orders == [orders[0]] + orders[1..];
    if |orders| == 1 then orders[0] else Max(orders[0], Latest(orders[1..]))
  }

  /** `need_key`: forward distance; passed samples after upcoming ones; unplanned samples last. */
  function NeedKey(orders: seq<nat>, ph: nat): nat {
    if orders == [] then UNPLANNED_KEY
    else
      var fwd := NearestFrom(orders, ph);
      if fwd.Some? then fwd.value - ph else PASSED_BASE + Max(ph - Latest(orders), 0)
  }

  ghost predicate Upcoming(orders: seq<nat>, ph: nat) { exists o :: o in orders && o >= ph }

  ghost predicate Passed(orders: seq<nat>, ph: nat) { orders != [] && !Upcoming(orders, ph) }

  ghost predicate OrdersUpTo(orders: seq<nat>, bound: nat) { forall o :: o in orders ==> o <= bound }

  /** The key depends only on which checkpoints name the sample. */
  lemma KeyByMembership(a: seq<nat>, b: seq<nat>, ph: nat)
    requires forall o :: o in a <==> o in b
    ensures NeedKey(a, ph) == NeedKey(b, ph)
  {
    assert a == [] <==> b == [] by {
      if a != [] { assert a[0] in b; }
      if b != [] { assert b[0] in a; }
    }
    if a != [] && NearestFrom(a, ph).None? {
      assert Latest(a) in b && Latest(b) in a;
    }
  }

  /**
   * Upcoming samples go before passed ones, at every playhead, exactly as long as no checkpoint
   * order exceeds 10^9 + 1.
   */
  lemma UpcomingBeforePassedIff(bound: nat)
    ensures bound <= PASSED_BASE + 1 <==>
      forall a, b, ph :: OrdersUpTo(a, bound) && Upcoming(a, ph) && OrdersUpTo(b, bound) && Passed(b, ph) ==>
        NeedKey(a, ph) < NeedKey(b, ph)
  {
    if bound <= PASSED_BASE + 1 {
      forall a, b, ph | OrdersUpTo(a, bound) && Upcoming(a, ph) && OrdersUpTo(b, bound) && Passed(b, ph)
        ensures NeedKey(a, ph) < NeedKey(b, ph)
      {
        UpcomingBeforePassed(a, b, ph, bound);
      }
    } else {
      var a, b: seq<nat> := [bound], [0];
      assert a[0] in a && Upcoming(a, 1);
      assert OrdersUpTo(a, bound) && OrdersUpTo(b, bound) && Passed(b, 1);
      assert NeedKey(a, 1) == bound - 1 && NeedKey(b, 1) == PASSED_BASE + 1;
    }
  }

  lemma UpcomingBeforePassed(a: seq<nat>, b: seq<nat>, ph: nat, bound: nat)
    requires bound <= PASSED_BASE + 1
    requires OrdersUpTo(a, bound) && Upcoming(a, ph) && Passed(b, ph)
    ensures NeedKey(a, ph) < NeedKey(b, ph)
  {
    assert Latest(b) in b;
    assert Latest(b) < ph;
  }

  /** Every planned sample goes before every unplanned one, for 32-bit orders and playheads. */
  lemma PlannedBeforeUnplanned(orders: seq<nat>, ph: nat)
    requires orders != [] && OrdersUpTo(orders, U32_MAX) && ph <= U32_MAX
    ensures NeedKey(orders, ph) < NeedKey([], ph)
  {
  }

  // ---- Which checkpoints name each sample ----

  ghost predicate NamedAt(cps: seq<Checkpoint>, s: nat, o: nat) {
    exists c :: c in cps && c.order == o && s in c.samples
  }

  ghost predicate OrdersIndex(cps: seq<Checkpoint>, m: map<nat, seq<nat>>) {
    && (forall s :: s in m ==> m[s] != [])
    && (forall s, o :: NamedAt(cps, s, o) <==> s in m && o in m[s])
  }

  function OrdersOf(m: map<nat, seq<nat>>, s: nat): seq<nat> { if s in m then m[s] else [] }

  function AddOrder(m: map<nat, seq<nat>>, s: nat, o: nat): map<nat, seq<nat>> {
    m[s := OrdersOf(m, s) + [o]]
  }

  method IndexOrders(cps: seq<Checkpoint>) returns (m: map<nat, seq<nat>>)
    ensures OrdersIndex(cps, m)
  {
    m := map[];
    for k := 0 to |cps|
      invariant OrdersIndex(cps[..k], m)
    {
      m := IndexCheckpoint(m, cps[k], cps[..k]);
      assert cps[..k + 1] == cps[..k] + [cps[k]];
    }
    assert cps[..|cps|] == cps;
  }

  method IndexCheckpoint(m0: map<nat, seq<nat>>, c: Checkpoint, ghost before: seq<Checkpoint>)
    returns (m: map<nat, seq<nat>>)
    requires OrdersIndex(before, m0)
    ensures OrdersIndex(before + [c], m)
  {
    hide OrdersIndex, AlsoNamed;
    m := m0;
    NoneNamed(before, m0, c.order);
    for j := 0 to |c.samples|
      invariant AlsoNamed(before, m, c.order, c.samples[..j])
    {
      var s := c.samples[j];
      assert c.samples[..j + 1] == c.samples[..j] + [s];
      NameOne(before, m, c.order, c.samples[..j], s);
      m := AddOrder(m, s, c.order);
    }
    assert c.samples[..|c.samples|] == c.samples;
    AllNamed(before, m, c);
  }

  /** `m` indexes `before` and, at `order`, the samples of `named`. */
  ghost predicate AlsoNamed(before: seq<Checkpoint>, m: map<nat, seq<nat>>, order: nat, named: seq<nat>) {
    && (forall s :: s in m ==> m[s] != [])
    && (forall s: nat, o: nat :: HasOrder(m, s, o) <==> NamedAt(before, s, o) || (o == order && s in named))
  }

  predicate HasOrder(m: map<nat, seq<nat>>, s: nat, o: nat) { s in m && o in m[s] }

  lemma NoneNamed(before: seq<Checkpoint>, m: map<nat, seq<nat>>, order: nat)
    requires OrdersIndex(before, m)
    ensures AlsoNamed(before, m, order, [])
  {
    hide NamedAt;
    OrdersIndexFacts(before, m);
  }

  lemma NameOne(before: seq<Checkpoint>, m: map<nat, seq<nat>>, order: nat, named: seq<nat>, x: nat)
    requires AlsoNamed(before, m, order, named)
    ensures AlsoNamed(before, AddOrder(m, x, order), order, named + [x])
  {
    hide NamedAt;
    var after := AddOrder(m, x, order);
    forall s: nat, o: nat
      ensures HasOrder(after, s, o) <==> NamedAt(before, s, o) || (o == order && s in named + [x])
    {
      assert HasOrder(m, s, o) <==> NamedAt(before, s, o) || (o == order && s in named);
      assert HasOrder(after, s, o) <==> HasOrder(m, s, o) || (s == x && o == order);
    }
  }

  lemma AllNamed(before: seq<Checkpoint>, m: map<nat, seq<nat>>, c: Checkpoint)
    requires AlsoNamed(before, m, c.order, c.samples)
    ensures OrdersIndex(before + [c], m)
  {
    hide NamedAt, OrdersIndex;
    forall s: nat, o: nat
      ensures NamedAt(before + [c], s, o) <==> s in m && o in m[s]
    {
      NamedSnoc(before, c, s, o);
      assert HasOrder(m, s, o) <==> NamedAt(before, s, o) || (o == c.order && s in c.samples);
    }
    OrdersIndexIs(before + [c], m);
  }

  lemma OrdersIndexFacts(cps: seq<Checkpoint>, m: map<nat, seq<nat>>)
    requires OrdersIndex(cps, m)
    ensures forall s :: s in m ==> m[s] != []
    ensures forall s, o :: NamedAt(cps, s, o) <==> s in m && o in m[s]
  {
  }

  lemma OrdersIndexIs(cps: seq<Checkpoint>, m: map<nat, seq<nat>>)
    requires forall s :: s in m ==> m[s] != []
    requires forall s, o :: NamedAt(cps, s, o) <==> s in m && o in m[s]
    ensures OrdersIndex(cps, m)
  {
  }

  lemma NamedSnoc(cps: seq<Checkpoint>, c: Checkpoint, s: nat, o: nat)
    ensures NamedAt(cps + [c], s, o) <==> NamedAt(cps, s, o) || (o == c.order && s in c.samples)
  {
    if NamedAt(cps, s, o) {
      var d :| d in cps && d.order == o && s in d.samples;
      assert d in cps + [c];
    }
    if o == c.order && s in c.samples {
      assert c in cps + [c];
    }
  }

  // ---- The schedule ----

  /** No sample position is delivered twice, and all are real. */
  ghost predicate Distinct(events: seq<nat>, n: nat) {
    && (forall k :: 0 <= k < |events| ==> events[k] < n)
    && (forall j, k :: 0 <= j < k < |events| ==> events[j] != events[k])
  }

  /** The positions of required samples, in table order. */
  function WarmOrder(samples: seq<nat>, required: set<nat>): seq<nat> {
    if samples == [] then []
    else
      var init := WarmOrder(samples[..|samples| - 1], required);
      if samples[|samples| - 1] in required then init + [|samples| - 1] else init
  }

  /** Event `k` is a sample of least key among those not delivered before it. */
  ghost predicate BestNext(samples: seq<nat>, m: map<nat, seq<nat>>, events: seq<nat>, k: nat, ph: nat)
    requires k < |events| && Distinct(events, |samples|)
  {
    forall j :: 0 <= j < |samples| && j !in events[..k] ==>
      NeedKey(OrdersOf(m, samples[events[k]]), ph) <= NeedKey(OrdersOf(m, samples[j]), ph)
  }

  ghost predicate StepOk(samples: seq<nat>, m: map<nat, seq<nat>>, events: seq<nat>, k: nat, playhead: nat -> nat, warm: nat)
    requires warm <= k < |events| && Distinct(events, |samples|)
  {
    BestNext(samples, m, events, k, playhead(k - warm))
  }

  /** The warm samples first, then always a best one for the playhead of that step. */
  ghost predicate Scheduled(samples: seq<nat>, m: map<nat, seq<nat>>, required: set<nat>, playhead: nat -> nat, events: seq<nat>) {
    && Distinct(events, |samples|)
    && (events <= WarmOrder(samples, required) || WarmOrder(samples, required) <= events)
    && forall k :: |WarmOrder(samples, required)| <= k < |events| ==>
         StepOk(samples, m, events, k, playhead, |WarmOrder(samples, required)|)
  }

  lemma {:induction false} WarmOrderMeans(samples: seq<nat>, required: set<nat>)
    ensures Distinct(WarmOrder(samples, required), |samples|)
    ensures forall j :: 0 <= j < |samples| ==> (j in WarmOrder(samples, required) <==> samples[j] in required)
  {
    if samples != [] {
      WarmOrderMeans(samples[..|samples| - 1], required);
    }
  }

  /** The required samples are already in hand; a sample that does not decode ends the stream. */
  method DeliverWarm(samples: seq<nat>, required: set<nat>, decodes: nat -> bool) returns (events: seq<nat>, ok: bool)
    ensures ok ==> events == WarmOrder(samples, required)
    ensures events <= WarmOrder(samples, required)
    ensures !ok ==> exists i: nat :: !decodes(i)
  {
    events := [];
    for k := 0 to |samples|
      invariant events == WarmOrder(samples[..k], required)
    {
      WarmPrefix(samples, required, k);
      WarmPrefix(samples, required, k + 1);
      assert samples[..k + 1][..k] == samples[..k];
      if samples[k] in required {
        if !decodes(k) {
          return events, false;
        }
        events := events + [k];
      }
    }
    assert samples[..|samples|] == samples;
    ok := true;
  }

  lemma {:induction false} WarmPrefix(samples: seq<nat>, required: set<nat>, k: nat)
    requires k <= |samples|
    ensures WarmOrder(samples[..k], required) <= WarmOrder(samples, required)
    decreases |samples|
  {
    if k < |samples| {
      assert samples[..|samples| - 1][..k] == samples[..k];
      WarmPrefix(samples[..|samples| - 1], required, k);
    } else {
      assert samples[..k] == samples;
    }
  }

  /** Remove by moving the last element into the hole. */
  function SwapRemove(s: seq<nat>, i: nat): seq<nat>
    requires i < |s|
  {
    s[i := s[|s| - 1]][..|s| - 1]
  }

  /** The undelivered positions, each once. */
  ghost predicate Rest(remaining: seq<nat>, events: seq<nat>, n: nat) {
    && Distinct(remaining, n)
    && forall j :: 0 <= j < n ==> (j in remaining <==> j !in events)
  }

  lemma SwapRemoveRest(remaining: seq<nat>, events: seq<nat>, n: nat, i: nat)
    requires Rest(remaining, events, n) && i < |remaining|
    ensures Rest(SwapRemove(remaining, i), events + [remaining[i]], n)
  {
    var r := SwapRemove(remaining, i);
    var last := |remaining| - 1;
    forall j | 0 <= j < n
      ensures j in r <==> j !in events + [remaining[i]]
    {
      if j in r {
        var k :| 0 <= k < |r| && r[k] == j;
        assert remaining[if k == i then last else k] == j;
      }
      if j in remaining && j != remaining[i] {
        var k :| 0 <= k < |remaining| && remaining[k] == j;
        assert r[if k == last then i else k] == j;
      }
    }
  }

  /** The scan for the best remaining sample. */
  method PickBest(samples: seq<nat>, m: map<nat, seq<nat>>, remaining: seq<nat>, ph: nat) returns (best: nat)
    requires remaining != [] && forall k :: 0 <= k < |remaining| ==> remaining[k] < |samples|
    ensures best < |remaining|
    ensures forall k :: 0 <= k < |remaining| ==>
      NeedKey(OrdersOf(m, samples[remaining[best]]), ph) <= NeedKey(OrdersOf(m, samples[remaining[k]]), ph)
  {
    hide NeedKey, OrdersOf;
    best := 0;
    var bestKey := NeedKey(OrdersOf(m, samples[remaining[0]]), ph);
    for ri := 1 to |remaining|
      invariant best < |remaining| && bestKey == NeedKey(OrdersOf(m, samples[remaining[best]]), ph)
      invariant forall k :: 0 <= k < ri ==> bestKey <= NeedKey(OrdersOf(m, samples[remaining[k]]), ph)
    {
      var key := NeedKey(OrdersOf(m, samples[remaining[ri]]), ph);
      if key < bestKey {
        bestKey, best := key, ri;
      }
    }
  }

  lemma PrefixDistinct(a: seq<nat>, b: seq<nat>, n: nat)
    requires a <= b && Distinct(b, n)
    ensures Distinct(a, n)
  {
  }

  /** `(0..samples.len()).filter(...)`: positions whose slot was not delivered in the warm batch. */
  method Undelivered(samples: seq<nat>, required: set<nat>, events: seq<nat>) returns (remaining: seq<nat>)
    requires events == WarmOrder(samples, required)
    ensures Rest(remaining, events, |samples|)
  {
    WarmOrderMeans(samples, required);
    var delivered := set k | 0 <= k < |events| :: samples[events[k]];
    assert forall j :: 0 <= j < |samples| ==> (samples[j] in delivered <==> samples[j] in required) by {
      forall j | 0 <= j < |samples| && samples[j] in required
        ensures samples[j] in delivered
      {
        var k :| 0 <= k < |events| && events[k] == j;
      }
    }
    remaining := [];
    for i := 0 to |samples|
      invariant Distinct(remaining, i)
      invariant forall j :: 0 <= j < i ==> (j in remaining <==> j !in events)
    {
      if samples[i] !in delivered {
        remaining := remaining + [i];
      }
    }
  }

  ghost function Members(s: seq<nat>): (r: set<nat>)
    ensures forall x :: x in r <==> x in s
  {
    if s == [] then {} else Members(s[..|s| - 1]) + {s[|s| - 1]}
  }

  lemma {:induction false} DistinctCount(events: seq<nat>, n: nat)
    requires Distinct(events, n)
    ensures |Members(events)| == |events|
  {
    if events != [] {
      var init, last := events[..|events| - 1], events[|events| - 1];
      DistinctCount(init, n);
      assert last !in Members(init);
    }
  }

  ghost function Range(n: nat): (r: set<nat>)
    ensures |r| == n && forall j: nat :: j in r <==> j < n
  {
    if n == 0 then {} else Range(n - 1) + {n - 1}
  }

  lemma AllDelivered(events: seq<nat>, n: nat)
    requires Rest([], events, n) && Distinct(events, n)
    ensures |events| == n
  {
    DistinctCount(events, n);
    assert Members(events) == Range(n);
  }

  lemma Delivered(samples: seq<nat>, m: map<nat, seq<nat>>, required: set<nat>, playhead: nat -> nat, events: seq<nat>, next: nat)
    requires Scheduled(samples, m, required, playhead, events) && |events| >= |WarmOrder(samples, required)|
    requires next < |samples| && next !in events
    requires forall j :: 0 <= j < |samples| && j !in events ==>
      NeedKey(OrdersOf(m, samples[next]), playhead(|events| - |WarmOrder(samples, required)|)) <=
      NeedKey(OrdersOf(m, samples[j]), playhead(|events| - |WarmOrder(samples, required)|))
    ensures Scheduled(samples, m, required, playhead, events + [next])
  {
    hide NeedKey, OrdersOf, WarmOrder;
    var warm, events' := WarmOrder(samples, required), events + [next];
    forall k | |warm| <= k < |events'|
      ensures StepOk(samples, m, events', k, playhead, |warm|)
    {
      assert events'[..k] == events[..k];
      if k < |events| {
        assert StepOk(samples, m, events, k, playhead, |warm|);
      } else {
        assert events[..k] == events;
      }
    }
  }

  /**
   * Sample delivery of `stream_v2`: `decodes` says which samples fetch and decode, `playhead` where
   * the listener is at each step after the warm batch.
   */
  method DeliverSamples(samples: seq<nat>, m: map<nat, seq<nat>>, required: set<nat>, decodes: nat -> bool, playhead: nat -> nat)
    returns (events: seq<nat>, complete: bool)
    ensures Scheduled(samples, m, required, playhead, events)
    ensures complete ==> |events| == |samples|
    ensures (forall i: nat :: decodes(i)) ==> complete
  {
    hide WarmOrder, NeedKey, StepOk;
    WarmOrderMeans(samples, required);
    events, complete := DeliverWarm(samples, required, decodes);
    if !complete {
      PrefixDistinct(events, WarmOrder(samples, required), |samples|);
      return;
    }
    var remaining := Undelivered(samples, required, events);
    while remaining != []
      invariant Rest(remaining, events, |samples|)
      invariant Scheduled(samples, m, required, playhead, events)
      invariant |events| >= |WarmOrder(samples, required)|
      decreases |remaining|
    {
      var ph := playhead(|events| - |WarmOrder(samples, required)|);
      var best := PickBest(samples, m, remaining, ph);
      var si := remaining[best];
      if !decodes(si) {
        return events, false;
      }
      forall j | 0 <= j < |samples| && j !in events
        ensures NeedKey(OrdersOf(m, samples[si]), ph) <= NeedKey(OrdersOf(m, samples[j]), ph)
      {
        assert j in remaining;
      }
      Delivered(samples, m, required, playhead, events, si);
      SwapRemoveRest(remaining, events, |samples|, best);
      remaining, events := SwapRemove(remaining, best), events + [si];
    }
    AllDelivered(events, |samples|);
  }

  // ---- What the schedule means for the fence ----

  /** A complete delivery hands over every sample table entry exactly once. */
  lemma CompleteMeansAll(samples: seq<nat>, m: map<nat, seq<nat>>, required: set<nat>, playhead: nat -> nat, events: seq<nat>, i: nat)
    requires Scheduled(samples, m, required, playhead, events) && |events| == |samples| && i < |samples|
    ensures i in events
  {
    DistinctCount(events, |samples|);
    if i !in events {
      assert Members(events) <= Range(|samples|) - {i};
      SubsetSize(Members(events), Range(|samples|) - {i});
    }
  }

  /** The slots handed over by a delivery. */
  function Arrived(samples: seq<nat>, events: seq<nat>): set<nat> {
    set k | 0 <= k < |events| && events[k] < |samples| :: samples[events[k]]
  }

  /**
   * The warm batch alone opens the fence: whatever the pruned plan requires at order 0 has arrived
   * before any other sample is looked at.
   */
  lemma WarmBatchOpensFence(plan: Plan, samples: seq<nat>)
    ensures var streamed := set s | s in samples;
      var required := RequiredAt(Prune(plan, streamed), 0);
      required <= Arrived(samples, WarmOrder(samples, required))
  {
    var streamed := set s | s in samples;
    var required := RequiredAt(Prune(plan, streamed), 0);
    var warm := WarmOrder(samples, required);
    PruningNamesOnlyStreamed(plan, streamed, 0);
    WarmOrderMeans(samples, required);
    forall s | s in required
      ensures s in Arrived(samples, warm)
    {
      assert s in streamed;
      var j :| 0 <= j < |samples| && samples[j] == s;
      var k :| 0 <= k < |warm| && warm[k] == j;
    }
  }

  ghost predicate StrictOrders(cps: seq<Checkpoint>, bound: nat) {
    && (forall j, k :: 0 <= j < k < |cps| ==> cps[j].order < cps[k].order)
    && (forall k :: 0 <= k < |cps| ==> cps[k].order <= bound)
  }

  lemma NamedOrders(cps: seq<Checkpoint>, m: map<nat, seq<nat>>, s: nat, o: nat)
    requires OrdersIndex(cps, m)
    ensures o in OrdersOf(m, s) <==> exists k :: 0 <= k < |cps| && cps[k].order == o && s in cps[k].samples
  {
    if o in OrdersOf(m, s) {
      assert NamedAt(cps, s, o);
      var c :| c in cps && c.order == o && s in c.samples;
      var k :| 0 <= k < |cps| && cps[k] == c;
    }
    if k :| 0 <= k < |cps| && cps[k].order == o && s in cps[k].samples {
      assert cps[k] in cps;
      assert NamedAt(cps, s, o);
    }
  }

  lemma RequiredKey(cps: seq<Checkpoint>, m: map<nat, seq<nat>>, f: nat, k: nat, s: nat)
    requires OrdersIndex(cps, m) && f <= k < |cps| && StrictOrders(cps, PASSED_BASE) && s in cps[k].samples
    ensures NeedKey(OrdersOf(m, s), cps[f].order) <= cps[k].order - cps[f].order
  {
    NamedOrders(cps, m, s, cps[k].order);
  }

  lemma UnrequiredKey(cps: seq<Checkpoint>, m: map<nat, seq<nat>>, f: nat, last: nat, s: nat)
    requires OrdersIndex(cps, m) && f <= last < |cps| && StrictOrders(cps, PASSED_BASE)
    requires last == Min(f + 1, |cps| - 1) && s !in cps[f].samples && s !in cps[last].samples
    ensures NeedKey(OrdersOf(m, s), cps[f].order) > cps[last].order - cps[f].order
  {
    var os, ph := OrdersOf(m, s), cps[f].order;
    if os != [] {
      var fwd := NearestFrom(os, ph);
      if fwd.Some? {
        NamedOrders(cps, m, s, fwd.value);
        var k :| 0 <= k < |cps| && cps[k].order == fwd.value && s in cps[k].samples;
        assert k > last;
      }
    }
  }

  /** With the playhead on a checkpoint, everything the fence waits for is fetched before anything else. */
  lemma FenceSamplesFirst(cps: seq<Checkpoint>, m: map<nat, seq<nat>>, f: nat, s: nat, other: nat)
    requires OrdersIndex(cps, m) && f < |cps| && StrictOrders(cps, PASSED_BASE)
    requires s in RequiredSorted(cps, cps[f].order) && other !in RequiredSorted(cps, cps[f].order)
    ensures NeedKey(OrdersOf(m, s), cps[f].order) < NeedKey(OrdersOf(m, other), cps[f].order)
  {
    hide OrdersIndex, NeedKey, OrdersOf;
    FloorFound(cps, cps[f].order, f);
    var last := Min(f + 1, |cps| - 1);
    var k :| f <= k <= last && s in cps[k].samples;
    assert other !in cps[f].samples && other !in cps[last].samples;
    RequiredKey(cps, m, f, k, s);
    UnrequiredKey(cps, m, f, last, other);
    assert cps[k].order <= cps[last].order;
  }

  /** A required sample all of whose checkpoints have passed was named last at the floor checkpoint or after. */
  lemma PassedRequiredIsRecent(cps: seq<Checkpoint>, m: map<nat, seq<nat>>, ph: nat, s: nat) returns (f: nat)
    requires OrdersIndex(cps, m) && StrictOrders(cps, PASSED_BASE) && s in RequiredSorted(cps, ph)
    requires NearestFrom(OrdersOf(m, s), ph).None?
    ensures f < |cps| && Floor(cps, ph) == f && OrdersOf(m, s) != [] && Latest(OrdersOf(m, s)) >= cps[f].order
  {
    hide OrdersIndex, OrdersOf, Floor;
    var floor := Floor(cps, ph);
    var k :| Max(floor, 0) <= k <= Min(Max(floor + 1, 0), |cps| - 1) && s in cps[k].samples;
    NamedOrders(cps, m, s, cps[k].order);
    assert cps[k].order < ph;
    f := k;
  }

  /** A sample not required, all of whose checkpoints have passed, was named last before the floor checkpoint. */
  lemma PassedOtherIsOlder(cps: seq<Checkpoint>, m: map<nat, seq<nat>>, ph: nat, f: nat, other: nat)
    requires OrdersIndex(cps, m) && StrictOrders(cps, PASSED_BASE) && other !in RequiredSorted(cps, ph)
    requires f < |cps| && Floor(cps, ph) == f
    requires NearestFrom(OrdersOf(m, other), ph).None? && OrdersOf(m, other) != []
    ensures Latest(OrdersOf(m, other)) < cps[f].order
  {
    hide OrdersIndex, OrdersOf, Floor;
    var last := Latest(OrdersOf(m, other));
    NamedOrders(cps, m, other, last);
    var k :| 0 <= k < |cps| && cps[k].order == last && other in cps[k].samples;
    assert other !in cps[f].samples;
    assert k <= f;
  }

  /**
   * At any playhead, a sample the fence waits for is fetched before one it does not wait for exactly
   * unless the other is needed again, and the awaited one is not needed again before it.
   */
  lemma FenceSampleFirstIff(cps: seq<Checkpoint>, m: map<nat, seq<nat>>, ph: nat, s: nat, other: nat)
    requires OrdersIndex(cps, m) && StrictOrders(cps, PASSED_BASE) && ph <= U32_MAX
    requires s in RequiredSorted(cps, ph) && other !in RequiredSorted(cps, ph)
    ensures NeedKey(OrdersOf(m, s), ph) < NeedKey(OrdersOf(m, other), ph) <==>
      var next, nextOther := NearestFrom(OrdersOf(m, s), ph), NearestFrom(OrdersOf(m, other), ph);
      nextOther.Some? ==> next.Some? && next.value < nextOther.value
  {
    hide OrdersIndex, OrdersOf, RequiredSorted, NearestFrom, Latest;
    var a, b := OrdersOf(m, s), OrdersOf(m, other);
    OrdersAreBounded(cps, m, s);
    OrdersAreBounded(cps, m, other);
    RequiredIsNamed(cps, m, ph, s);
    if NearestFrom(a, ph).None? {
      var f := PassedRequiredIsRecent(cps, m, ph, s);
      if NearestFrom(b, ph).None? && b != [] {
        PassedOtherIsOlder(cps, m, ph, f, other);
      }
    }
  }

  lemma OrdersAreBounded(cps: seq<Checkpoint>, m: map<nat, seq<nat>>, s: nat)
    requires OrdersIndex(cps, m) && StrictOrders(cps, PASSED_BASE)
    ensures OrdersUpTo(OrdersOf(m, s), PASSED_BASE)
  {
    hide OrdersIndex, OrdersOf;
    forall o | o in OrdersOf(m, s) ensures o <= PASSED_BASE {
      NamedOrders(cps, m, s, o);
    }
  }

  lemma RequiredIsNamed(cps: seq<Checkpoint>, m: map<nat, seq<nat>>, ph: nat, s: nat)
    requires OrdersIndex(cps, m) && s in RequiredSorted(cps, ph)
    ensures OrdersOf(m, s) != []
  {
    hide OrdersIndex, OrdersOf, Floor;
    var k :| 0 <= k < |cps| && s in cps[k].samples;
    NamedOrders(cps, m, s, cps[k].order);
  }

  /** Between checkpoints it need not be: slot 1 is awaited at order 2, but slot 3 is fetched first. */
  lemma FenceSampleCanWait()
    ensures var cps := [Checkpoint(0, [1]), Checkpoint(4, [2]), Checkpoint(8, [3])];
      var m := map[1 := [0], 2 := [4], 3 := [8]];
      && 1 in RequiredSorted(cps, 2) && 3 !in RequiredSorted(cps, 2)
      && NeedKey(OrdersOf(m, 3), 2) < NeedKey(OrdersOf(m, 1), 2)
  {
    var cps := [Checkpoint(0, [1]), Checkpoint(4, [2]), Checkpoint(8, [3])];
    FloorFound(cps, 2, 0);
    assert 1 in cps[0].samples && 3 !in cps[0].samples && 3 !in cps[1].samples;
    assert NeedKey([8], 2) == 6 && NeedKey([0], 2) == PASSED_BASE + 2 by {
      assert [8][1..] == [] && [0][1..] == [] && NearestFrom([], 2) == None;
    }
  }

  // ---- stream_v2 as a whole ----

  /** Prune the plan, deliver what order 0 requires, then the rest by the moving playhead. */
  method StreamRoot(plan0: Plan, samples: seq<nat>, decodes: nat -> bool, playhead: nat -> nat)
    returns (plan: Plan, ghost m: map<nat, seq<nat>>, events: seq<nat>, complete: bool)
    ensures plan == Prune(plan0, set s | s in samples)
    ensures OrdersIndex(plan.checkpoints, m)
    ensures Scheduled(samples, m, RequiredAt(plan, 0), playhead, events)
    ensures complete ==> |events| == |samples|
    ensures (forall i: nat :: decodes(i)) ==> complete
  {
    hide Scheduled, RequiredAt, OrdersIndex, Prune;
    var dropped;
    plan, dropped := PrunePlan(plan0, set s | s in samples);
    var orders := IndexOrders(plan.checkpoints);
    var required := RequiredAtOrder(plan, 0);
    m := orders;
    events, complete := DeliverSamples(samples, orders, required, decodes, playhead);
  }
}
