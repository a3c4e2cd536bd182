/** Pruning a plan to the streamed slots neither weakens the required sets nor names absent slots. */
module PlanLaws {
  import opened Basics
  import opened Sorting
  import opened Plan

  function KeepStreamed(samples: seq<nat>, streamed: set<nat>): seq<nat> {
    if samples == [] then []
    else (if samples[0] in streamed then [samples[0]] else []) + KeepStreamed(samples[1..], streamed)
  }

  function PruneCheckpoint(c: Checkpoint, streamed: set<nat>): Option<Checkpoint> {
    var samples := KeepStreamed(c.samples, streamed);
    if samples == [] then None else Some(Checkpoint(c.order, samples))
  }

  function Pruner(streamed: set<nat>): Checkpoint -> Option<Checkpoint> {
    (c: Checkpoint) => PruneCheckpoint(c, streamed)
  }

  function Prune(plan: Plan, streamed: set<nat>): Plan {
    Plan(plan.orderSeconds, FilterMap(plan.checkpoints, Pruner(streamed)))
  }

  /** `retain_mut` over the checkpoints: keep streamed samples, drop emptied checkpoints. */
  method PrunePlan(plan: Plan, streamed: set<nat>) returns (pruned: Plan, dropped: nat)
    ensures pruned == Prune(plan, streamed)
    ensures dropped == |plan.checkpoints| - |pruned.checkpoints|
  {
    var cps: seq<Checkpoint> := [];
    for k := 0 to |plan.checkpoints|
      invariant cps == FilterMap(plan.checkpoints[..k], Pruner(streamed))
      invariant |cps| <= k
    {
      var c := plan.checkpoints[k];
      assert plan.checkpoints[..k + 1] == plan.checkpoints[..k] + [c];
      FilterMapSnoc(plan.checkpoints[..k], c, Pruner(streamed));
      var samples := KeepStreamed(c.samples, streamed);
      if samples != [] {
        cps := cps + [Checkpoint(c.order, samples)];
      }
    }
    assert plan.checkpoints[..|plan.checkpoints|] == plan.checkpoints;
    pruned := Plan(plan.orderSeconds, cps);
    dropped := |plan.checkpoints| - |cps|;
  }

  lemma {:induction false} KeepStreamedMembers(samples: seq<nat>, streamed: set<nat>)
    ensures forall s :: s in KeepStreamed(samples, streamed) <==> s in samples && s in streamed
  {
    if samples != [] {
      KeepStreamedMembers(samples[1..], streamed);
      assert samples == [samples[0]] + samples[1..];
    }
  }

  lemma PrunedOrders(cps: seq<Checkpoint>, streamed: set<nat>, q: Checkpoint)
    requires q in FilterMap(cps, Pruner(streamed))
    ensures exists c :: c in cps && c.order == q.order
  {
    FilterMapMembers(cps, Pruner(streamed));
    var c :| c in cps && Pruner(streamed)(c) == Some(q);
  }

  lemma FloorSplits(cps: seq<Checkpoint>, order: nat)
    requires SortedBy(cps, ByOrder())
    ensures var n := Floor(cps, order) + 1;
      && (forall c :: c in cps[..n] ==> c.order <= order)
      && (forall c :: c in cps[n..] ==> c.order > order)
  {
    var n := Floor(cps, order) + 1;
    assert forall k :: 0 <= k < n ==> ByOrder()(cps[k]) <= ByOrder()(cps[n - 1]);
  }

  lemma PrunedFloor(cps: seq<Checkpoint>, streamed: set<nat>, order: nat)
    requires SortedBy(cps, ByOrder())
    ensures var n := Floor(cps, order) + 1;
      Floor(FilterMap(cps, Pruner(streamed)), order) == |FilterMap(cps[..n], Pruner(streamed))| - 1
  {
    hide FilterMap, Floor, SortedBy;
    var n := Floor(cps, order) + 1;
    var due, later := FilterMap(cps[..n], Pruner(streamed)), FilterMap(cps[n..], Pruner(streamed));
    assert cps == cps[..n] + cps[n..];
    FilterMapAppend(cps[..n], cps[n..], Pruner(streamed));
    FloorSplits(cps, order);
    forall k | 0 <= k < |due|
      ensures due[k].order <= order
    {
      PrunedOrders(cps[..n], streamed, due[k]);
    }
    forall k | 0 <= k < |later|
      ensures later[k].order > order
    {
      PrunedOrders(cps[n..], streamed, later[k]);
    }
    FloorFound(due + later, order, |due| - 1);
  }

  lemma PrunedKeepsSample(cps: seq<Checkpoint>, streamed: set<nat>, order: nat, k: int, s: nat)
    requires SortedBy(cps, ByOrder()) && s in streamed
    requires Max(Floor(cps, order), 0) <= k <= Min(Max(Floor(cps, order) + 1, 0), |cps| - 1) && s in cps[k].samples
    ensures s in RequiredSorted(FilterMap(cps, Pruner(streamed)), order)
  {
    hide FilterMap, Floor, SortedBy;
    var n := Floor(cps, order) + 1;
    var p := FilterMap(cps, Pruner(streamed));
    KeepStreamedMembers(cps[k].samples, streamed);
    assert PruneCheckpoint(cps[k], streamed).Some?;
    FilterMapPosition(cps, Pruner(streamed), k);
    PrunedFloor(cps, streamed, order);
    var j := |FilterMap(cps[..k], Pruner(streamed))|;
    assert k == n - 1 || k == n;
    assert s in p[j].samples;
  }

  /** The fence over the pruned plan still waits for every streamed slot the original waited for. */
  lemma PruningKeepsRequired(plan: Plan, streamed: set<nat>, order: nat)
    ensures RequiredAt(plan, order) * streamed <= RequiredAt(Prune(plan, streamed), order)
  {
    hide SortBy, Floor, FilterMap, SortedBy;
    var cps := SortBy(plan.checkpoints, ByOrder());
    SortByIsASort(plan.checkpoints, ByOrder());
    FilterMapSort(plan.checkpoints, Pruner(streamed), ByOrder());
    forall s | s in RequiredAt(plan, order) && s in streamed
      ensures s in RequiredAt(Prune(plan, streamed), order)
    {
      var f := Floor(cps, order);
      var k :| Max(f, 0) <= k <= Min(Max(f + 1, 0), |cps| - 1) && s in cps[k].samples;
      PrunedKeepsSample(cps, streamed, order, k, s);
    }
  }

  /** What the pruned plan requires, some checkpoint of the original names. */
  lemma PrunedRequiredIsNamed(plan: Plan, streamed: set<nat>, order: nat, s: nat) returns (c: Checkpoint)
    requires s in RequiredAt(Prune(plan, streamed), order)
    ensures c in plan.checkpoints && s in c.samples
  {
    hide SortBy, Floor, KeepStreamed;
    var pruned := Prune(plan, streamed).checkpoints;
    var cps := SortBy(pruned, ByOrder());
    SortByKeepsMembers(pruned, ByOrder());
    var k :| 0 <= k < |cps| && s in cps[k].samples;
    assert cps[k] in pruned;
    FilterMapMembers(plan.checkpoints, Pruner(streamed));
    c :| c in plan.checkpoints && Pruner(streamed)(c) == Some(cps[k]);
    KeepStreamedMembers(c.samples, streamed);
  }

  lemma PrunedSampleArrives(cps: seq<Checkpoint>, streamed: set<nat>, q: Checkpoint, s: nat)
    requires q in FilterMap(cps, Pruner(streamed)) && s in q.samples
    ensures s in streamed
  {
    FilterMapMembers(cps, Pruner(streamed));
    var c :| c in cps && Pruner(streamed)(c) == Some(q);
    KeepStreamedMembers(c.samples, streamed);
  }

  /** And it waits for nothing that will not arrive. */
  lemma PruningNamesOnlyStreamed(plan: Plan, streamed: set<nat>, order: nat)
    ensures RequiredAt(Prune(plan, streamed), order) <= streamed
  {
    var pruned := Prune(plan, streamed).checkpoints;
    var cps := SortBy(pruned, ByOrder());
    SortByKeepsMembers(pruned, ByOrder());
    forall k, s | 0 <= k < |cps| && s in cps[k].samples
      ensures s in streamed
    {
      assert cps[k] in pruned;
      PrunedSampleArrives(plan.checkpoints, streamed, cps[k], s);
    }
  }

  /** A plan that names only streamed slots is left alone up to its emptied checkpoints. */
  lemma PruningFixesStreamedPlans(plan: Plan, streamed: set<nat>)
    requires forall c :: c in plan.checkpoints ==> c.samples != [] && forall s :: s in c.samples ==> s in streamed
    ensures Prune(plan, streamed) == plan
  {
    PruneAll(plan.checkpoints, streamed);
  }

  lemma {:induction false} PruneAll(cps: seq<Checkpoint>, streamed: set<nat>)
    requires forall c :: c in cps ==> c.samples != [] && forall s :: s in c.samples ==> s in streamed
    ensures FilterMap(cps, Pruner(streamed)) == cps
  {
    if cps != [] {
      KeepAll(cps[0].samples, streamed);
      PruneAll(cps[1..], streamed);
    }
  }

  lemma {:induction false} KeepAll(samples: seq<nat>, streamed: set<nat>)
    requires forall s :: s in samples ==> s in streamed
    ensures KeepStreamed(samples, streamed) == samples
  {
    if samples != [] {
      KeepAll(samples[1..], streamed);
    }
  }
}
