/**
 * The planning index: seek tables in file offsets, the plan in sample slots, and the set of slots
 * that must be resident to play at an order.
 */
module Plan {
  import opened Basics
  import opened Sorting

  datatype OrderSec = OrderSec(order: nat, seconds: real)
  datatype Checkpoint = Checkpoint(order: nat, samples: seq<nat>)
  datatype Plan = Plan(orderSeconds: seq<OrderSec>, checkpoints: seq<Checkpoint>)

  datatype SeekCheckpoint = SeekCheckpoint(order: nat, residentOffsets: seq<int>)
  datatype SeekTables = SeekTables(
    orderSeconds: seq<OrderSec>, segment0Offsets: seq<int>, checkpoints: seq<SeekCheckpoint>)

  /** A streamed slot as the plan builder sees it. */
  datatype StreamedSlot = StreamedSlot(offset: nat, index: nat)

  // ---- From offsets to slots ----

  /** The slot registered at an offset: the map keeps the last one written. */
  function SlotAt(streamed: seq<StreamedSlot>, o: int): Option<nat> {
    if streamed == [] then None
    else
      var last := streamed[|streamed| - 1];
      if last.offset == o then Some(last.index) else SlotAt(streamed[..|streamed| - 1], o)
  }

  method IndexByOffset(streamed: seq<StreamedSlot>) returns (m: map<int, nat>)
    ensures forall o: int :: SlotAt(streamed, o) == if o in m then Some(m[o]) else None
  {
    m := map[];
    for k := 0 to |streamed|
      invariant forall o: int :: SlotAt(streamed[..k], o) == if o in m then Some(m[o]) else None
    {
      assert streamed[..k + 1][..k] == streamed[..k];
      m := m[streamed[k].offset := streamed[k].index];
    }
    assert streamed[..|streamed|] == streamed;
  }

  function ToSlots(streamed: seq<StreamedSlot>, offs: seq<int>): seq<nat> {
    FilterMap(offs, (o: int) => SlotAt(streamed, o))
  }

  function Resolve(streamed: seq<StreamedSlot>, c: SeekCheckpoint): Option<Checkpoint> {
    var samples := ToSlots(streamed, c.residentOffsets);
    if samples == [] then None else Some(Checkpoint(c.order, samples))
  }

  function Resolver(streamed: seq<StreamedSlot>): SeekCheckpoint -> Option<Checkpoint> {
    (c: SeekCheckpoint) => Resolve(streamed, c)
  }

  /** Checkpoints that resolve to something, or an opening one from segment 0 when none does. */
  function PlanOf(tables: Option<SeekTables>, streamed: seq<StreamedSlot>): Plan {
    if tables.None? then Plan([], [])
    else
      var t := tables.value;
      var cps := FilterMap(t.checkpoints, Resolver(streamed));
      var seg0 := ToSlots(streamed, t.segment0Offsets);
      Plan(t.orderSeconds, if cps == [] && seg0 != [] then [Checkpoint(0, seg0)] else cps)
  }

  method SlotsOf(m: map<int, nat>, offs: seq<int>, ghost streamed: seq<StreamedSlot>) returns (out: seq<nat>)
    requires forall o: int :: SlotAt(streamed, o) == if o in m then Some(m[o]) else None
    ensures out == ToSlots(streamed, offs)
  {
    out := [];
    ghost var f := (o: int) => SlotAt(streamed, o);
    for k := 0 to |offs|
      invariant out == FilterMap(offs[..k], f)
    {
      assert offs[..k + 1] == offs[..k] + [offs[k]];
      FilterMapSnoc(offs[..k], offs[k], f);
      if offs[k] in m {
        out := out + [m[offs[k]]];
      }
    }
    assert offs[..|offs|] == offs;
  }

  method BuildPlan(tables: Option<SeekTables>, streamed: seq<StreamedSlot>) returns (plan: Plan)
    ensures plan == PlanOf(tables, streamed)
  {
    if tables.None? {
      return Plan([], []);
    }
    var t := tables.value;
    var idx := IndexByOffset(streamed);
    var cps: seq<Checkpoint> := [];
    ghost var f := Resolver(streamed);
    for k := 0 to |t.checkpoints|
      invariant cps == FilterMap(t.checkpoints[..k], f)
    {
      var c := t.checkpoints[k];
      assert t.checkpoints[..k + 1] == t.checkpoints[..k] + [c];
      FilterMapSnoc(t.checkpoints[..k], c, f);
      var samples := SlotsOf(idx, c.residentOffsets, streamed);
      if samples != [] {
        cps := cps + [Checkpoint(c.order, samples)];
      }
    }
    assert t.checkpoints[..|t.checkpoints|] == t.checkpoints;
    if cps == [] {
      var seg0 := SlotsOf(idx, t.segment0Offsets, streamed);
      if seg0 != [] {
        cps := [Checkpoint(0, seg0)];
      }
    }
    plan := Plan(t.orderSeconds, cps);
  }

  // ---- The required set ----

  function ByOrder(): Checkpoint -> int { (c: Checkpoint) => c.order }

  /** The greatest index whose order is at most `order`, or -1. */
  function Floor(cps: seq<Checkpoint>, order: nat): (f: int)
    ensures -1 <= f < |cps|
    ensures f >= 0 ==> cps[f].order <= order
    ensures forall k :: f < k < |cps| ==> cps[k].order > order
  {
    if cps == [] then -1
    else if cps[|cps| - 1].order <= order then |cps| - 1
    else Floor(cps[..|cps| - 1], order)
  }

  function Samples(cps: seq<Checkpoint>, lo: int, hi: int): set<nat> {
    set k, s | 0 <= lo <= k <= hi < |cps| && s in cps[k].samples :: s
  }

  /** Over checkpoints in order: the floor checkpoint and the one after it, clamped. */
  function RequiredSorted(cps: seq<Checkpoint>, order: nat): set<nat> {
    var f := Floor(cps, order);
    Samples(cps, Max(f, 0), Min(Max(f + 1, 0), |cps| - 1))
  }

  function RequiredAt(plan: Plan, order: nat): set<nat> {
    RequiredSorted(SortBy(plan.checkpoints, ByOrder()), order)
  }

  lemma FloorFound(cps: seq<Checkpoint>, order: nat, f: int)
    requires -1 <= f < |cps| && (f >= 0 ==> cps[f].order <= order)
    requires forall k :: f < k < |cps| ==> cps[k].order > order
    ensures Floor(cps, order) == f
  {
  }

  /** The desktop client's `required_at`. */
  method RequiredAtOrder(plan: Plan, order: nat) returns (required: set<nat>)
    ensures required == RequiredAt(plan, order)
  {
    var cps := SortBy(plan.checkpoints, ByOrder());
    hide SortBy, Floor;
    required := {};
    if cps == [] {
      return;
    }
    var floor := |cps| - 1;
    while floor >= 0 && cps[floor].order > order
      invariant -1 <= floor < |cps|
      invariant forall k :: floor < k < |cps| ==> cps[k].order > order
    {
      floor := floor - 1;
    }
    FloorFound(cps, order, floor);
    required := CollectSamples(cps, Max(floor, 0), Min(Max(floor + 1, 0), |cps| - 1));
  }

  method CollectSamples(cps: seq<Checkpoint>, lo: nat, hi: nat) returns (required: set<nat>)
    requires lo <= hi < |cps|
    ensures required == Samples(cps, lo, hi)
  {
    required := {};
    for k := lo to hi + 1
      invariant required == Samples(cps, lo, k - 1)
    {
      required := required + set s | s in cps[k].samples;
      assert forall s :: s in Samples(cps, lo, k) <==> s in Samples(cps, lo, k - 1) || s in cps[k].samples;
    }
  }

  /** The web builder's `requiredAtZero`, which looks for the floor from the front. */
  method RequiredAtZero(plan: Plan) returns (required: set<nat>)
    ensures required == RequiredAt(plan, 0)
  {
    var cps := SortBy(plan.checkpoints, ByOrder());
    hide SortBy, Floor;
    if cps == [] {
      return {};
    }
    var floor := -1;
    for i := 0 to |cps|
      invariant -1 <= floor < i && (floor >= 0 ==> cps[floor].order <= 0)
      invariant forall k :: floor < k < i ==> cps[k].order > 0
    {
      if cps[i].order <= 0 {
        floor := i;
      }
    }
    FloorFound(cps, 0, floor);
    required := CollectSamples(cps, Max(floor, 0), Min(Max(floor + 1, 0), |cps| - 1));
  }
}
