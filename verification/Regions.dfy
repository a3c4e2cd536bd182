/** The sample regions of a v1 build: whatever an extractor reports, a sorted disjoint partition. */
module Regions {
  import opened Basics
  import opened Sorting

  datatype Region = Region(offset: int, length: int)

  predicate InBounds(r: Region, n: nat) { r.length > 0 && r.offset >= 0 && r.offset + r.length <= n }

  function End(r: Region): int { r.offset + r.length }

  /** Ascending, disjoint, non-empty and inside the file. */
  ghost predicate Partition(rs: seq<Region>, n: nat) {
    && (forall k :: 0 <= k < |rs| ==> InBounds(rs[k], n))
    && (forall j, k :: 0 <= j < k < |rs| ==> End(rs[j]) <= rs[k].offset)
  }

  ghost predicate Inside(x: int, r: Region) { r.offset <= x < End(r) }

  ghost predicate KeptOrInside(r: Region, kept: seq<Region>) {
    r in kept || exists k :: 0 <= k < |kept| && Inside(r.offset, kept[k])
  }

  function ByOffset(): Region -> int { (r: Region) => r.offset }

  function KeepInBounds(raw: seq<Region>, n: nat): seq<Region> {
    FilterMap(raw, (r: Region) => if InBounds(r, n) then Some(r) else None)
  }

  method SortedInBounds(raw: seq<Region>, n: nat) returns (sorted: seq<Region>)
    ensures SortedBy(sorted, ByOffset())
    ensures forall r :: r in sorted <==> r in raw && InBounds(r, n)
  {
    var f := (r: Region) => if InBounds(r, n) then Some(r) else None;
    var kept := KeepInBounds(raw, n);
    sorted := SortBy(kept, ByOffset());
    SortByIsASort(kept, ByOffset());
    SortByKeepsMembers(kept, ByOffset());
    FilterMapMembers(raw, f);
    forall r
      ensures r in sorted <==> r in raw && InBounds(r, n)
    {
      assert r in sorted <==> exists x :: x in raw && f(x) == Some(r);
      assert InBounds(r, n) ==> f(r) == Some(r);
    }
  }

  /** Keeps reported regions only, and drops one only if it is out of bounds or starts inside a kept one. */
  method SampleRegions(raw: seq<Region>, n: nat) returns (regions: seq<Region>)
    ensures Partition(regions, n)
    ensures forall r :: r in regions ==> r in raw
    ensures forall r :: r in raw && InBounds(r, n) ==> KeptOrInside(r, regions)
  {
    hide Partition, AllKept, KeptOrInside, SortedBy;
    var sorted := SortedInBounds(raw, n);
    regions := [];
    var end := 0;
    NoneKept(n);
    for i := 0 to |sorted|
      invariant Partition(regions, n) && AllKept(sorted[..i], regions)
      invariant forall r :: r in regions ==> r in raw
      invariant end == if regions == [] then 0 else End(regions[|regions| - 1])
      invariant regions != [] && i < |sorted| ==> regions[|regions| - 1].offset <= sorted[i].offset
    {
      var r := sorted[i];
      assert r in sorted && sorted[..i + 1] == sorted[..i] + [r];
      OffsetsAscend(sorted, i);
      if r.offset >= end {
        PartitionSnoc(regions, r, n);
        KeepNew(sorted[..i], regions, r);
        regions := regions + [r];
        end := r.offset + r.length;
      } else {
        KeepOld(sorted[..i], regions, r);
      }
    }
    assert sorted[..|sorted|] == sorted;
    forall r | r in raw && InBounds(r, n)
      ensures KeptOrInside(r, regions)
    {
      KeptAt(sorted, regions, r);
    }
  }

  ghost predicate AllKept(rs: seq<Region>, kept: seq<Region>) {
    forall r :: r in rs ==> KeptOrInside(r, kept)
  }

  lemma NoneKept(n: nat)
    ensures Partition([], n) && AllKept([], [])
  {
  }

  lemma KeptAt(rs: seq<Region>, kept: seq<Region>, r: Region)
    requires AllKept(rs, kept) && r in rs
    ensures KeptOrInside(r, kept)
  {
  }

  lemma OffsetsAscend(sorted: seq<Region>, i: nat)
    requires SortedBy(sorted, ByOffset()) && i < |sorted|
    ensures i + 1 < |sorted| ==> sorted[i].offset <= sorted[i + 1].offset
  {
    assert i + 1 < |sorted| ==> ByOffset()(sorted[i]) <= ByOffset()(sorted[i + 1]);
  }

  lemma PartitionSnoc(regions: seq<Region>, r: Region, n: nat)
    requires Partition(regions, n) && InBounds(r, n)
    requires regions != [] ==> End(regions[|regions| - 1]) <= r.offset
    ensures Partition(regions + [r], n)
  {
    forall j | 0 <= j < |regions| ensures End(regions[j]) <= r.offset {
      assert InBounds(regions[|regions| - 1], n);
    }
  }

  lemma KeepNew(rs: seq<Region>, regions: seq<Region>, r: Region)
    requires AllKept(rs, regions)
    ensures AllKept(rs + [r], regions + [r])
  {
    hide KeptOrInside;
    forall x | x in rs + [r] ensures KeptOrInside(x, regions + [r]) {
      if x in rs {
        KeepMore(x, regions, regions + [r]);
      } else {
        JustKept(regions, r);
      }
    }
  }

  lemma JustKept(regions: seq<Region>, r: Region)
    ensures KeptOrInside(r, regions + [r])
  {
    assert (regions + [r])[|regions|] == r;
  }

  lemma KeepOld(rs: seq<Region>, regions: seq<Region>, r: Region)
    requires AllKept(rs, regions) && regions != [] && Inside(r.offset, regions[|regions| - 1])
    ensures AllKept(rs + [r], regions)
  {
  }

  lemma KeepMore(r: Region, before: seq<Region>, regions: seq<Region>)
    requires before <= regions && KeptOrInside(r, before)
    ensures KeptOrInside(r, regions)
  {
    if r !in before {
      var k :| 0 <= k < |before| && Inside(r.offset, before[k]);
      assert regions[k] == before[k];
    }
  }
}
