/** The audio thread's fence: it lets playback enter an order only when that order's samples are in. */
module ClientFence {
  import opened Basics
  import opened Sorting
  import opened Plan
  import opened PlanLaws
  import opened Seek
  import opened FenceCoverage

  /** The required set with `extra` further checkpoints, the margin asked for after a stall. */
  function RequiredWithMargin(cps: seq<Checkpoint>, order: nat, extra: nat): set<nat> {
    var f := Floor(cps, order);
    Samples(cps, Max(f, 0), Min(f + 1 + extra, |cps| - 1))
  }

  lemma MarginContainsRequired(cps: seq<Checkpoint>, order: nat, extra: nat)
    ensures RequiredSorted(cps, order) <= RequiredWithMargin(cps, order, extra)
  {
  }

  /** The latest start time mapped at or before `order`, or 0. */
  function SecondsForOrder(orderSeconds: seq<OrderSec>, order: nat): real {
    if orderSeconds == [] then 0.0
    else
      var last := orderSeconds[|orderSeconds| - 1];
      var best := SecondsForOrder(orderSeconds[..|orderSeconds| - 1], order);
      if last.order <= order && last.seconds > best then last.seconds else best
  }

  class Fence {
    var provided: set<nat>
    const cps: seq<Checkpoint>
    var stalled: bool
    const lookahead: nat

    ghost predicate Valid() { SortedBy(cps, ByOrder()) }

    constructor (plan: Plan, lookahead: nat)
      ensures Valid() && cps == SortBy(plan.checkpoints, ByOrder()) && this.lookahead == lookahead
      ensures provided == {} && !stalled
    {
      SortByIsASort(plan.checkpoints, ByOrder());
      this.cps, this.lookahead := SortBy(plan.checkpoints, ByOrder()), lookahead;
      provided, stalled := {}, false;
    }

    method Provide(index: nat)
      modifies this`provided
      ensures provided == old(provided) + {index}
    {
      provided := provided + {index};
    }

    /** Binary search for the floor. */
    method FloorIdx(order: nat) returns (res: int)
      requires Valid()
      ensures res == Floor(cps, order)
    {
      hide Floor;
      var lo, hi := 0, |cps| - 1;
      res := -1;
      while lo <= hi
        invariant 0 <= lo <= hi + 1 <= |cps| && res == lo - 1
        invariant forall k :: 0 <= k < lo ==> cps[k].order <= order
        invariant forall k :: hi < k < |cps| ==> cps[k].order > order
        decreases hi - lo
      {
        var m := (lo + hi) / 2;
        assert forall k :: 0 <= k < m ==> ByOrder()(cps[k]) <= ByOrder()(cps[m]);
        assert forall k :: m < k < |cps| ==> ByOrder()(cps[m]) <= ByOrder()(cps[k]);
        if cps[m].order <= order {
          res, lo := m, m + 1;
        } else {
          hi := m - 1;
        }
      }
      FloorFound(cps, order, res);
    }

    method UnionRange(start: int, end: int) returns (s: set<nat>)
      ensures s == Samples(cps, Max(0, start), Min(end, |cps| - 1))
    {
      s := {};
      var lo, hi := Max(0, start), Min(end, |cps| - 1);
      if lo <= hi {
        for k := lo to hi + 1
          invariant s == Samples(cps, lo, k - 1)
        {
          s := s + set x | x in cps[k].samples;
          assert forall x :: x in Samples(cps, lo, k) <==> x in Samples(cps, lo, k - 1) || x in cps[k].samples;
        }
      }
    }

    /** The client's set is the desktop's `required_at`. */
    method RequiredAtOrder(order: nat) returns (s: set<nat>)
      requires Valid()
      ensures s == RequiredSorted(cps, order)
    {
      var i := FloorIdx(order);
      s := UnionRange(i, i + 1);
    }

    /** May playback proceed? True only with the order's samples in; after a stall, with the margin in. */
    method Ready(order: nat) returns (ok: bool)
      requires Valid()
      modifies this`stalled
      ensures ok ==> RequiredSorted(cps, order) <= provided
      ensures RequiredSorted(cps, order) == {} ==> ok && stalled == old(stalled)
      ensures RequiredSorted(cps, order) != {} ==> stalled == !ok
      ensures RequiredSorted(cps, order) != {} ==>
        ok == if old(stalled) then RequiredWithMargin(cps, order, lookahead) <= provided
              else RequiredSorted(cps, order) <= provided
    {
      hide Floor, Samples;
      var i := FloorIdx(order);
      var base := UnionRange(i, i + 1);
      if base == {} {
        return true;
      }
      if !stalled {
        if base <= provided {
          return true;
        }
        stalled := true;
        return false;
      }
      MarginContainsRequired(cps, order, lookahead);
      var wide := UnionRange(i, i + 1 + lookahead);
      if wide <= provided {
        stalled := false;
        return true;
      }
      return false;
    }

    predicate Blocked(order: nat)
      reads this
    {
      !(RequiredSorted(cps, order) <= provided)
    }

    /** The start time of the earliest order that is still blocked, or the whole duration. */
    method PlayableSeconds(orderSeconds: seq<OrderSec>, duration: real) returns (r: real)
      requires Valid()
      ensures (forall o: nat :: !Blocked(o)) ==> r == duration
      ensures (exists o: nat :: Blocked(o)) ==>
        exists b: nat :: Blocked(b) && (forall o: nat :: o < b ==> !Blocked(o)) && r == SecondsForOrder(orderSeconds, b)
    {
      hide RequiredSorted;
      if cps == [] {
        NothingRequired(cps);
        return duration;
      }
      var first := RequiredAtOrder(0);
      if !(first <= provided) {
        assert Blocked(0);
        return SecondsForOrder(orderSeconds, 0);
      }
      for k := 0 to |cps|
        invariant !Blocked(0) && forall j :: 0 <= j < k ==> !Blocked(cps[j].order)
      {
        var need := RequiredAtOrder(cps[k].order);
        if !(need <= provided) {
          forall o: nat | o < cps[k].order
            ensures !Blocked(o)
          {
            RequiredChangesAtCheckpoints(cps, o);
            assert forall j :: k <= j < |cps| ==> ByOrder()(cps[k]) <= ByOrder()(cps[j]);
          }
          assert Blocked(cps[k].order);
          return SecondsForOrder(orderSeconds, cps[k].order);
        }
      }
      forall o: nat
        ensures !Blocked(o)
      {
        RequiredChangesAtCheckpoints(cps, o);
      }
      return duration;
    }
  }

  lemma NothingRequired(cps: seq<Checkpoint>)
    requires cps == []
    ensures forall o: nat :: RequiredSorted(cps, o) == {}
  {
  }

  /** The required set at any order is the one at order 0 or at a checkpoint's own order before it. */
  lemma RequiredChangesAtCheckpoints(cps: seq<Checkpoint>, order: nat)
    requires SortedBy(cps, ByOrder())
    ensures RequiredSorted(cps, order) == RequiredSorted(cps, 0)
      || exists k | 0 <= k < |cps| && cps[k].order <= order ::
           RequiredSorted(cps, order) == RequiredSorted(cps, cps[k].order)
  {
    hide Samples, Floor;
    var f := Floor(cps, order);
    if f < 0 {
      FloorFound(cps, 0, -1);
    } else {
      FloorFound(cps, cps[f].order, f);
      assert RequiredSorted(cps, order) == RequiredSorted(cps, cps[f].order);
    }
  }

  // ---- What the margin is for ----

  lemma RequiredByIndex(cps: seq<Checkpoint>, order: nat, s: nat)
    ensures var f := Floor(cps, order);
      s in RequiredSorted(cps, order) <==>
      exists k :: Max(f, 0) <= k <= Min(Max(f + 1, 0), |cps| - 1) && s in cps[k].samples
  {
    hide Floor;
  }

  lemma FloorAtOwn(cps: seq<Checkpoint>, k: nat)
    requires (forall i, j :: 0 <= i < j < |cps| ==> cps[i].order < cps[j].order) && k < |cps|
    ensures Floor(cps, cps[k].order) == k
  {
    FloorFound(cps, cps[k].order, k);
  }

  /**
   * The margin asked for after a stall is what the fence will ask for at the order itself and at the next
   * `extra` checkpoints: with it in, none of those will stall again.
   */
  lemma MarginIs(cps: seq<Checkpoint>, order: nat, extra: nat, s: nat)
    requires forall i, j :: 0 <= i < j < |cps| ==> cps[i].order < cps[j].order
    ensures s in RequiredWithMargin(cps, order, extra) <==>
      || s in RequiredSorted(cps, order)
      || exists k: nat :: Floor(cps, order) < k <= Floor(cps, order) + extra && k < |cps|
                          && s in RequiredSorted(cps, cps[k].order)
  {
    hide Floor, RequiredSorted, RequiredWithMargin;
    var f := Floor(cps, order);
    RequiredByIndex(cps, order, s);
    MarginByIndex(cps, order, extra, s);
    if s in RequiredWithMargin(cps, order, extra) {
      var k: nat :| Max(f, 0) <= k <= Min(f + 1 + extra, |cps| - 1) && s in cps[k].samples;
      if k > Max(f + 1, 0) {
        RequiredAtOwn(cps, k - 1, s);
        assert s in RequiredSorted(cps, cps[k - 1].order);
      }
    }
    if k: nat :| f < k <= f + extra && k < |cps| && s in RequiredSorted(cps, cps[k].order) {
      RequiredAtOwn(cps, k, s);
    }
  }

  lemma RequiredAtOwn(cps: seq<Checkpoint>, k: nat, s: nat)
    requires (forall i, j :: 0 <= i < j < |cps| ==> cps[i].order < cps[j].order) && k < |cps|
    ensures s in RequiredSorted(cps, cps[k].order) <==> s in cps[k].samples || (k + 1 < |cps| && s in cps[k + 1].samples)
  {
    hide Floor, RequiredSorted;
    RequiredByIndex(cps, cps[k].order, s);
    FloorAtOwn(cps, k);
  }

  lemma MarginByIndex(cps: seq<Checkpoint>, order: nat, extra: nat, s: nat)
    ensures var f := Floor(cps, order);
      s in RequiredWithMargin(cps, order, extra) <==>
      exists k :: Max(f, 0) <= k <= Min(f + 1 + extra, |cps| - 1) && s in cps[k].samples
  {
    hide Floor;
  }

  // ---- Start times ----

  /** The latest start among the entries up to an order, and 0 when there is none. */
  lemma {:induction false} SecondsForOrderIs(orderSeconds: seq<OrderSec>, order: nat)
    ensures var r := SecondsForOrder(orderSeconds, order);
      && r >= 0.0 && (forall e :: e in orderSeconds && e.order <= order ==> e.seconds <= r)
      && (r == 0.0 || exists e :: e in orderSeconds && e.order <= order && e.seconds == r)
    decreases |orderSeconds|
  {
    if orderSeconds != [] {
      SecondsForOrderIs(orderSeconds[..|orderSeconds| - 1], order);
      assert orderSeconds == orderSeconds[..|orderSeconds| - 1] + [orderSeconds[|orderSeconds| - 1]];
    }
  }

  // ---- The fence over the pruned plan of a simulated song ----

  /**
   * Nothing sounds before it has arrived. The baked plan, pruned by the client to the samples that arrive,
   * lets an order start only when a streamed slot that can sound before the fence has to be asked again, up
   * to the end of the next checkpoint's span, is in: for every such slot, exactly when no later streamed
   * slot shares its offset.
   */
  lemma NothingSoundsEarly(
    m: SimModel, t: SeekTables, streamed: seq<StreamedSlot>, arriving: set<nat>,
    p: nat, p2: nat, k: nat, ch: nat, s: int, j: nat)
    requires ModelOk(m) && TablesOk(m, t) && DistinctIndices(streamed)
    requires p < |m.orderPats| && WithinReach(|m.orderPats|, p, p2)
    requires p2 < |m.orderPats| && k <= |EventsAt(m, p2)|
    requires Sounding(Played(m, p2, k), ch) == Some(s)
    requires j < |streamed| && streamed[j].offset == m.offsetOf(s) && streamed[j].index in arriving
    ensures LastAtOffset(streamed, j) <==>
      forall provided: set<nat> ::
        RequiredAt(Prune(PlanOf(Some(t), streamed), arriving), m.orderPats[p].order) <= provided ==> streamed[j].index in provided
  {
    hide ModelOk, TablesOk, Sounding, Played, EventsAt, PlanOf, Prune, RequiredAt, SlotAt, WithinReach;
    var plan, order, i := PlanOf(Some(t), streamed), m.orderPats[p].order, streamed[j].index;
    var required := RequiredAt(Prune(plan, arriving), order);
    if LastAtOffset(streamed, j) {
      SlotCoveredIffLastAtOffset(m, t, streamed, p, p2, k, ch, s, j);
      PruningKeepsRequired(plan, arriving, order);
    }
    if i in required {
      var c := PrunedRequiredIsNamed(plan, arriving, order, i);
      var o := CheckpointNamesRegistered(t, streamed, c, i);
      var l := SlotAtIsLast(streamed, o, i);
      assert l == j;
    }
    assert required <= required;
  }

  /** And nothing is waited for in vain: once every arriving sample is in, every order may start. */
  lemma FenceOpensWhenAllArrived(plan: Plan, arriving: set<nat>, provided: set<nat>, order: nat, extra: nat)
    requires arriving <= provided
    ensures RequiredWithMargin(SortBy(Prune(plan, arriving).checkpoints, ByOrder()), order, extra) <= provided
  {
    var pruned := Prune(plan, arriving).checkpoints;
    var cps := SortBy(pruned, ByOrder());
    SortByKeepsMembers(pruned, ByOrder());
    forall j, s | 0 <= j < |cps| && s in cps[j].samples
      ensures s in arriving
    {
      assert cps[j] in pruned;
      PrunedSampleArrives(plan.checkpoints, arriving, cps[j], s);
    }
  }
}
