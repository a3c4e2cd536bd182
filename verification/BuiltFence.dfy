/** A built root and its song: what can sound, if the root streams it, is required by the root's plan. */
module BuiltFence {
  import opened Basics
  import opened Sorting
  import opened Plan
  import opened PlanLaws
  import opened Skeleton
  import opened SkeletonLaws
  import opened Blocks
  import opened Rebuild
  import opened Seek
  import opened FenceCoverage
  import opened ClientFence
  import opened Repack

  // ---- A bake ----

  /** A file and its song, the slots located in it, what was dumped and picked for them, and the root built. */
  datatype Bake = Bake(
    data: Bytes, slots: seq<Slot>, model: SimModel, tables: SeekTables,
    decoded: seq<Dump>, picks: seq<Pick>, version: nat, built: Built)

  ghost predicate IndicesAscend(slots: seq<Slot>) {
    forall j, k :: 0 <= j < k < |slots| ==> slots[j].index < slots[k].index
  }

  /** Locator and tables speak of the same samples: slot `s + 1` lies where the tables put sample `s`. */
  ghost predicate Joined(m: SimModel, slots: seq<Slot>) {
    && IndicesAscend(slots)
    && forall x :: x in slots ==> x.index > 0 && m.offsetOf(x.index - 1) == x.offset
  }

  ghost predicate IsBake(f: Foreign, x: Bake) {
    && AllInFile(x.slots, |x.data|) && NoneCompressed(x.slots) && Joined(x.model, x.slots)
    && ModelOk(x.model) && TablesOk(x.model, x.tables)
    && PicksFor(x.data, x.slots, x.decoded, x.picks)
    && BuiltOk(f, x.data, x.picks, Some(x.tables), x.version, x.built)
  }

  /** Picks are slots of the file, in slot order. */
  lemma {:induction false} PicksAreSlots(data: Bytes, slots: seq<Slot>, decoded: seq<Dump>, picks: seq<Pick>)
    requires AllInFile(slots, |data|) && NoneCompressed(slots) && IndicesAscend(slots)
    requires PicksFor(data, slots, decoded, picks)
    ensures forall k :: 0 <= k < |picks| ==> picks[k].slot in slots
    ensures forall j, k :: 0 <= j < k < |picks| ==> picks[j].slot.index < picks[k].slot.index
    decreases |slots|
  {
    hide Streamable, PickOk, Reproduces, DumpFor;
    if slots != [] {
      var init, s := slots[..|slots| - 1], slots[|slots| - 1];
      assert slots == init + [s] && InFile(s, |data|);
      assert forall x | x in init :: x.index < s.index;
      if Streamable(data, s, decoded) {
        PicksAreSlots(data, init, decoded, picks[..|picks| - 1]);
        PickAfter(picks[..|picks| - 1], init, picks[|picks| - 1], s);
        assert picks == picks[..|picks| - 1] + [picks[|picks| - 1]];
      } else {
        PicksAreSlots(data, init, decoded, picks);
      }
    }
  }

  lemma PickAfter(picks: seq<Pick>, slots: seq<Slot>, last: Pick, s: Slot)
    requires forall k :: 0 <= k < |picks| ==> picks[k].slot in slots
    requires forall j, k :: 0 <= j < k < |picks| ==> picks[j].slot.index < picks[k].slot.index
    requires last.slot == s && forall x :: x in slots ==> x.index < s.index
    ensures forall k :: 0 <= k < |picks + [last]| ==> (picks + [last])[k].slot in slots + [s]
    ensures forall j, k :: 0 <= j < k < |picks + [last]| ==> (picks + [last])[j].slot.index < (picks + [last])[k].slot.index
  {
  }

  // ---- What the root streams ----

  /** No later entry of the sample table lies at the same offset. */
  ghost predicate LastRef(samples: seq<SampleRef>, j: nat)
    requires j < |samples|
  {
    forall k :: j < k < |samples| ==> samples[k].offset != samples[j].offset
  }

  ghost predicate Streams(samples: seq<SampleRef>, index: nat) {
    exists j: nat :: j < |samples| && samples[j].index == index && LastRef(samples, j)
  }

  /** The table lists the picks. */
  lemma TableLists(f: Foreign, x: Bake)
    requires IsBake(f, x)
    ensures |x.built.index.samples| == |x.picks|
    ensures forall k :: 0 <= k < |x.picks| ==>
      x.built.index.samples[k].index == x.picks[k].slot.index && x.built.index.samples[k].offset == x.picks[k].slot.offset
  {
    hide PicksFor, ModelOk, TablesOk, Joined, ManifestAt, IndexOf, Blanked, Rebuild.SkeletonAt, Kept, RefOk;
    forall k | 0 <= k < |x.picks|
      ensures x.built.index.samples[k].index == x.picks[k].slot.index && x.built.index.samples[k].offset == x.picks[k].slot.offset
    {
      assert RefStored(f, x.built.store, x.picks[k], x.built.index.samples[k], x.version);
    }
  }

  // ---- What can sound ----

  /** Sample `s` can sound on channel `ch` at event `k` of the played order at position `p`. */
  ghost predicate CanSound(m: SimModel, p: nat, k: nat, ch: nat, s: nat) {
    p < |m.orderPats| && k <= |EventsAt(m, p)| && Sounding(Played(m, p, k), ch) == Some(s)
  }

  /** It can sound at a position that playing reaches from `order` before the fence must be asked again. */
  ghost predicate SoundsFrom(m: SimModel, order: nat, p: nat, p2: nat, k: nat, ch: nat, s: nat) {
    p < |m.orderPats| && m.orderPats[p].order == order && WithinReach(|m.orderPats|, p, p2) && CanSound(m, p2, k, ch, s)
  }

  /** The root's plan is the plan of the slots in its table, each where the tables put its sample. */
  lemma PlannedFrom(f: Foreign, x: Bake)
    requires IsBake(f, x)
    ensures x.built.index.plan == PlanOf(Some(x.tables), StreamedSlots(x.picks))
    ensures |x.built.index.samples| == |StreamedSlots(x.picks)| && DistinctIndices(StreamedSlots(x.picks))
    ensures forall k :: 0 <= k < |x.picks| ==>
      var y, r := StreamedSlots(x.picks)[k], x.built.index.samples[k];
      r.index == y.index && r.offset == y.offset && y.index > 0 && x.model.offsetOf(y.index - 1) == y.offset
  {
    TableLists(f, x);
    PicksAreSlots(x.data, x.slots, x.decoded, x.picks);
    hide ModelOk, TablesOk, PicksFor, PlanOf, RefStored, ManifestAt, IndexOf, Blanked, Rebuild.SkeletonAt, AllInFile, Addressed;
    forall k | 0 <= k < |x.picks|
      ensures x.picks[k].slot.index > 0 && x.model.offsetOf(x.picks[k].slot.index - 1) == x.picks[k].slot.offset
    {
      assert x.picks[k].slot in x.slots;
    }
  }

  /** Of any built root: a streamed sample that can sound is required exactly when it is the last at its offset. */
  lemma BuiltCoversIff(f: Foreign, x: Bake, order: nat, p: nat, p2: nat, k: nat, ch: nat, s: nat, j: nat)
    requires IsBake(f, x) && SoundsFrom(x.model, order, p, p2, k, ch, s)
    requires j < |x.built.index.samples| && x.built.index.samples[j].index == s + 1
    ensures s + 1 in RequiredAt(x.built.index.plan, order) <==> LastRef(x.built.index.samples, j)
  {
    PlannedFrom(f, x);
    SimulatedFrom(f, x);
    hide IsBake, ModelOk, TablesOk, PlanOf, RequiredAt, Sounding, Played, EventsAt, WithinReach, LastRef, LastAtOffset, DistinctIndices;
    var streamed := StreamedSlots(x.picks);
    LastAlike(x.built.index.samples, streamed, j);
    SlotCoveredIffLastAtOffset(x.model, x.tables, streamed, p, p2, k, ch, s, j);
  }

  lemma SimulatedFrom(f: Foreign, x: Bake)
    requires IsBake(f, x)
    ensures ModelOk(x.model) && TablesOk(x.model, x.tables)
  {
  }

  lemma LastAlike(samples: seq<SampleRef>, streamed: seq<StreamedSlot>, j: nat)
    requires |samples| == |streamed| && j < |streamed|
    requires forall k :: 0 <= k < |streamed| ==> samples[k].offset == streamed[k].offset
    ensures LastRef(samples, j) <==> LastAtOffset(streamed, j)
  {
  }

  // ---- The client's fence over the root it streams ----

  /** The samples the root streams. */
  function Arriving(b: Built): set<nat> {
    set ref | ref in b.index.samples :: ref.index
  }

  /** A fence made from the root's plan, pruned to the samples that arrive. */
  ghost predicate Guards(g: Fence, b: Built) {
    g.Valid() && g.cps == SortBy(Prune(b.index.plan, Arriving(b)).checkpoints, ByOrder())
  }

  lemma GuardedSampleIsProvided(
    f: Foreign, x: Bake, provided: set<nat>, order: nat, p: nat, p2: nat, k: nat, ch: nat, s: nat)
    requires IsBake(f, x) && SoundsFrom(x.model, order, p, p2, k, ch, s) && Streams(x.built.index.samples, s + 1)
    requires RequiredAt(Prune(x.built.index.plan, Arriving(x.built)), order) <= provided
    ensures s + 1 in provided
  {
    hide IsBake, RequiredAt, Prune, SoundsFrom, LastRef;
    var samples := x.built.index.samples;
    var j: nat :| j < |samples| && samples[j].index == s + 1 && LastRef(samples, j);
    BuiltCoversIff(f, x, order, p, p2, k, ch, s, j);
    PruningKeepsRequired(x.built.index.plan, Arriving(x.built), order);
    assert samples[j] in samples && s + 1 in Arriving(x.built);
  }

  /**
   * One audio quantum at an order: when the fence lets it play, every streamed sample that can sound until
   * the end of the next checkpoint's span is in, so a block that runs on into the next order may sound.
   */
  method Quantum(g: Fence, order: nat, ghost f: Foreign, ghost x: Bake) returns (playing: bool)
    requires IsBake(f, x) && Guards(g, x.built)
    modifies g`stalled
    ensures playing ==> forall p: nat, p2: nat, k: nat, ch: nat, s: nat ::
      SoundsFrom(x.model, order, p, p2, k, ch, s) && Streams(x.built.index.samples, s + 1) ==> s + 1 in g.provided
  {
    hide IsBake, RequiredSorted, Prune, SoundsFrom, Streams;
    playing := g.Ready(order);
    if playing {
      forall p: nat, p2: nat, k: nat, ch: nat, s: nat |
        SoundsFrom(x.model, order, p, p2, k, ch, s) && Streams(x.built.index.samples, s + 1)
        ensures s + 1 in g.provided
      {
        GuardedSampleIsProvided(f, x, g.provided, order, p, p2, k, ch, s);
      }
    }
  }
}
