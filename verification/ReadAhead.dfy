/** The desktop catalog's tick-stamped page cache and read-ahead, and the exact number of fetch waves of a scan. */
module ReadAhead {
  import opened Basics
  import opened Sequences
  import opened PageLru

  const PREFETCH_CHUNKS: nat := 15
  const PREFETCH_MIN_RUN: nat := 4

  type Ticks = map<Key, nat>

  // ---- The cache as a function of what is done to it ----

  datatype Lru = Lru(ticks: Ticks, tick: nat)

  ghost predicate Stamped(c: Lru, cap: nat) {
    && cap > 0 && |c.ticks| <= cap
    && (forall k :: k in c.ticks ==> c.ticks[k] <= c.tick)
    && Distinct(c.ticks)
  }

  ghost predicate Distinct(m: Ticks) {
    forall j, k :: j in m && k in m && m[j] == m[k] ==> j == k
  }

  ghost predicate IsOldest(m: Ticks, k: Key) {
    k in m && forall x :: x in m ==> m[k] <= m[x]
  }

  lemma {:induction false} OldestExists(m: Ticks)
    requires m != map[]
    ensures exists k :: IsOldest(m, k)
    decreases |m|
  {
    var k :| k in m;
    var rest := m - {k};
    if rest == map[] {
      assert forall x | x in m :: x == k || x in rest;
      assert IsOldest(m, k);
    } else {
      OldestExists(rest);
      var o :| IsOldest(rest, o);
      assert forall x | x in m :: x == k || x in rest;
      assert IsOldest(m, if m[k] < m[o] then k else o);
    }
  }

  ghost function Oldest(m: Ticks): Key
    requires m != map[]
  {
    OldestExists(m);
    var k :| IsOldest(m, k);
    k
  }

  lemma OldestIs(m: Ticks)
    requires m != map[]
    ensures IsOldest(m, Oldest(m))
  {
    OldestExists(m);
  }

  ghost function Trim(m: Ticks, cap: nat): Ticks {
    if |m| > cap && m != map[] then m - {Oldest(m)} else m
  }

  ghost function PutTick(c: Lru, k: Key, cap: nat): Lru {
    Lru(Trim(c.ticks[k := c.tick + 1], cap), c.tick + 1)
  }

  /** The batch's results, stored in the order they arrive. */
  ghost function PutAll(c: Lru, ks: seq<Key>, cap: nat): Lru {
    if ks == [] then c
    else
      var before := PutAll(c, ks[..|ks| - 1], cap);
      if ks[|ks| - 1] in before.ticks then before else PutTick(before, ks[|ks| - 1], cap)
  }

  function GetTick(c: Lru, k: Key): Lru {
    Lru(if k in c.ticks then c.ticks[k := c.tick + 1] else c.ticks, c.tick + 1)
  }

  function GetAll(c: Lru, cid: string, first: nat, last: int): Lru
    decreases last - first
  {
    if last < first then c else GetTick(GetAll(c, cid, first, last - 1), Key(cid, last))
  }

  // ---- One read ----

  datatype Reader = Reader(cache: Lru, seqRun: nat, lastEnd: Option<nat>, waves: nat)

  function RunAfter(s: Reader, first: nat): nat {
    if s.lastEnd.Some? && (first == s.lastEnd.value || first == s.lastEnd.value + 1) then s.seqRun + 1 else 0
  }

  function High(run: nat, last: nat, lastChunk: nat): nat {
    if run >= PREFETCH_MIN_RUN then Min(last + PREFETCH_CHUNKS, lastChunk) else last
  }

  /** The chunks of `[first, hi]` that are not resident, ascending. */
  function Absent(m: Ticks, cid: string, first: nat, hi: int): seq<Key>
    decreases hi - first
  {
    if hi < first then []
    else Absent(m, cid, first, hi - 1) + if Key(cid, hi) in m then [] else [Key(cid, hi)]
  }

  predicate AllPresent(m: Ticks, cid: string, first: nat, last: int) {
    forall c :: first <= c <= last ==> Key(cid, c) in m
  }

  /** What a read of `[first, last]` fetches: nothing when the whole range is resident. */
  function Wanted(s: Reader, cid: string, first: nat, last: nat, lastChunk: nat): seq<Key> {
    if AllPresent(s.cache.ticks, cid, first, last) then []
    else Absent(s.cache.ticks, cid, first, High(RunAfter(s, first), last, lastChunk))
  }

  /** A successful read, its batch arriving in the order `arrived`. */
  ghost function AfterRead(s: Reader, cid: string, first: nat, last: nat, arrived: seq<Key>, cap: nat): Reader {
    Reader(GetAll(PutAll(s.cache, arrived, cap), cid, first, last), RunAfter(s, first), Some(last),
           s.waves + if arrived == [] then 0 else 1)
  }

  ghost predicate SameKeys(a: seq<Key>, b: seq<Key>) {
    multiset(a) == multiset(b)
  }

  /** `arrived[i]` is some order of what read `i` fetches, in an ascending scan of single chunks from `first`. */
  ghost predicate Arrivals(s: Reader, cid: string, first: nat, arrived: seq<seq<Key>>, lastChunk: nat, cap: nat) {
    forall i: nat :: i < |arrived| ==>
      SameKeys(arrived[i], Wanted(Scan(s, cid, first, arrived[..i], cap), cid, first + i, first + i, lastChunk))
  }

  ghost function Scan(s: Reader, cid: string, first: nat, arrived: seq<seq<Key>>, cap: nat): Reader {
    if arrived == [] then s
    else
      var n := |arrived| - 1;
      AfterRead(Scan(s, cid, first, arrived[..n], cap), cid, first + n, first + n, arrived[n], cap)
  }

  /** min(n, 4) + ceil(max(0, n - 4) / 16) */
  function WavesOf(n: nat): nat {
    Min(n, 4) + (Max(0, n - 4) + 15) / 16
  }

  /** How many chunks of the scan have been fetched after `n` reads. */
  function FetchedBy(n: nat): nat {
    Min(n, 4) + 16 * ((Max(0, n - 4) + 15) / 16)
  }

  // ---- A batch no larger than the cache survives its own insertion ----

  lemma TrimKeepsRecent(m: Ticks, cap: nat, recent: set<Key>, t: nat)
    requires |recent| <= cap
    requires forall k :: k in m ==> (m[k] > t <==> k in recent)
    ensures forall k :: k in m && k in recent ==> k in Trim(m, cap)
  {
    if |m| > cap && m != map[] && Oldest(m) in recent {
      OldestIs(m);
      forall k | k in m ensures k in recent {
        assert m[Oldest(m)] <= m[k];
      }
      assert m.Keys <= recent;
      SubsetSize(m.Keys, recent);
      assert false;
    }
  }

  ghost function Set(ks: seq<Key>): (r: set<Key>)
    ensures forall k :: k in r <==> k in ks
    ensures |r| <= |ks|
  {
    if ks == [] then {} else Set(ks[..|ks| - 1]) + {ks[|ks| - 1]}
  }

  lemma TrimKeeps(m: Ticks, cap: nat)
    requires cap > 0 && |m| <= cap + 1
    ensures |Trim(m, cap)| <= cap
    ensures forall k :: k in Trim(m, cap) ==> k in m && Trim(m, cap)[k] == m[k]
  {
  }

  ghost predicate Submap(m: Ticks, of: Ticks) {
    forall k :: k in m ==> k in of && m[k] == of[k]
  }

  lemma SubmapAt(m: Ticks, of: Ticks, k: Key)
    requires Submap(m, of) && k in m
    ensures k in of && m[k] == of[k]
  {
  }

  lemma StampDistinct(m: Ticks, k: Key, t: nat)
    requires Distinct(m) && forall x :: x in m ==> m[x] < t
    ensures Distinct(m[k := t])
  {
  }

  lemma SubmapDistinct(m: Ticks, of: Ticks)
    requires Submap(m, of) && Distinct(of)
    ensures Distinct(m)
  {
  }

  lemma PutKeeps(c: Lru, k: Key, cap: nat)
    requires Stamped(c, cap)
    ensures Stamped(PutTick(c, k, cap), cap)
    ensures Submap(PutTick(c, k, cap).ticks, c.ticks[k := c.tick + 1])
  {
    hide Trim, Distinct;
    var m := c.ticks[k := c.tick + 1];
    TrimKeeps(m, cap);
    StampDistinct(c.ticks, k, c.tick + 1);
    SubmapDistinct(Trim(m, cap), m);
  }

  /** The keys of `ks` are resident, they are exactly what is newer than `from`, and nothing else came. */
  ghost predicate Batched(from: Lru, c: Lru, ks: set<Key>) {
    && c.tick >= from.tick
    && ks <= c.ticks.Keys <= from.ticks.Keys + ks
    && (forall k :: k in c.ticks ==> (c.ticks[k] > from.tick <==> k in ks))
  }

  lemma PutStays(b: Lru, l: Key, cap: nat, ks: set<Key>, t: nat)
    requires t <= b.tick && |ks| < cap && ks <= b.ticks.Keys
    requires forall k :: k in b.ticks ==> (b.ticks[k] > t <==> k in ks)
    ensures ks + {l} <= PutTick(b, l, cap).ticks.Keys
  {
    hide Trim;
    TrimKeepsRecent(b.ticks[l := b.tick + 1], cap, ks + {l}, t);
  }

  lemma PutBatched(from: Lru, b: Lru, c: Lru, ks: set<Key>, l: Key)
    requires Batched(from, b, ks) && c.tick == b.tick + 1
    requires Submap(c.ticks, b.ticks[l := b.tick + 1]) && ks + {l} <= c.ticks.Keys
    ensures Batched(from, c, ks + {l})
  {
    hide Submap, Batched;
    var all := ks + {l};
    BatchedFacts(from, b, ks);
    forall k | k in c.ticks
      ensures (c.ticks[k] > from.tick <==> k in all) && (k in from.ticks || k in all)
    {
      SubmapAt(c.ticks, b.ticks[l := b.tick + 1], k);
    }
    BatchedIs(from, c, all);
  }

  lemma BatchedFacts(from: Lru, c: Lru, ks: set<Key>)
    requires Batched(from, c, ks)
    ensures c.tick >= from.tick && ks <= c.ticks.Keys
    ensures forall k :: k in c.ticks ==> (c.ticks[k] > from.tick <==> k in ks)
    ensures forall k :: k in c.ticks ==> k in from.ticks || k in ks
  {
  }

  lemma BatchedIs(from: Lru, c: Lru, ks: set<Key>)
    requires c.tick >= from.tick && ks <= c.ticks.Keys
    requires forall k :: k in c.ticks ==> (c.ticks[k] > from.tick <==> k in ks) && (k in from.ticks || k in ks)
    ensures Batched(from, c, ks)
  {
  }

  /** A batch no larger than the cache is resident once it is in, in whatever order it arrives. */
  lemma {:induction false} BatchResident(c: Lru, ks: seq<Key>, cap: nat)
    requires Stamped(c, cap) && |ks| <= cap
    requires forall k :: k in ks ==> k !in c.ticks
    ensures Stamped(PutAll(c, ks, cap), cap) && Batched(c, PutAll(c, ks, cap), Set(ks))
  {
    hide PutTick, Stamped, Submap, Batched;
    NothingBatched(c, cap);
    if ks != [] {
      var init, l := ks[..|ks| - 1], ks[|ks| - 1];
      assert ks == init + [l];
      BatchResident(c, init, cap);
      var b := PutAll(c, init, cap);
      if l in b.ticks {
        BatchedAlready(c, b, Set(init), l);
        assert Set(ks) == Set(init);
      } else {
        BatchedFacts(c, b, Set(init));
        PutStays(b, l, cap, Set(init), c.tick);
        PutKeeps(b, l, cap);
        TickAfterPut(b, l, cap);
        PutBatched(c, b, PutTick(b, l, cap), Set(init), l);
      }
    }
  }

  lemma BatchedAlready(from: Lru, b: Lru, ks: set<Key>, l: Key)
    requires Batched(from, b, ks) && l in b.ticks && l !in from.ticks
    ensures l in ks
  {
  }

  lemma NothingBatched(c: Lru, cap: nat)
    requires Stamped(c, cap)
    ensures Batched(c, c, {})
  {
  }

  lemma TickAfterPut(c: Lru, k: Key, cap: nat)
    ensures PutTick(c, k, cap).tick == c.tick + 1
  {
  }

  // ---- Which resident chunks a batch pushes out ----

  /** The entries older than `k`. */
  ghost function Older(m: Ticks, k: Key): set<Key>
    requires k in m
  {
    set x | x in m && m[x] < m[k]
  }

  /** One insertion evicts one entry when the cache is full: the oldest. */
  lemma PutRank(c: Lru, l: Key, cap: nat, k: Key)
    requires Stamped(c, cap) && l !in c.ticks && k in c.ticks
    ensures var after := PutTick(c, l, cap).ticks;
      && |after| == Min(cap, |c.ticks| + 1)
      && (k in after <==> |Older(c.ticks, k)| >= |c.ticks| + 1 - cap)
      && (k in after ==> |Older(after, k)| == |Older(c.ticks, k)| - (|c.ticks| + 1 - |after|))
  {
    hide Trim, IsOldest, Distinct;
    var m := c.ticks[l := c.tick + 1];
    PutSize(c, l, cap);
    assert Older(m, k) == Older(c.ticks, k);
    if |c.ticks| == cap {
      assert |m| > cap by { SizeOfPut(c.ticks, l, c.tick + 1); }
      StampDistinct(c.ticks, l, c.tick + 1);
      Evicts(m, cap);
      TrimRank(m, k);
    } else {
      Fits(c.ticks, l, c.tick + 1, cap);
    }
  }

  lemma Evicts(m: Ticks, cap: nat)
    requires |m| > cap
    ensures m != map[] && Trim(m, cap) == m - {Oldest(m)}
  {
  }

  lemma Fits(m: Ticks, l: Key, t: nat, cap: nat)
    requires |m| < cap && l !in m
    ensures Trim(m[l := t], cap) == m[l := t]
  {
    SizeOfPut(m, l, t);
  }

  lemma TrimRank(m: Ticks, k: Key)
    requires m != map[] && Distinct(m) && k in m
    ensures k == Oldest(m) <==> |Older(m, k)| == 0
    ensures k != Oldest(m) ==> |Older(m - {Oldest(m)}, k)| == |Older(m, k)| - 1
  {
    OldestIs(m);
    var o := Oldest(m);
    if k == o {
      assert Older(m, k) == {};
    } else {
      assert m[o] <= m[k];
      assert o in Older(m, k);
      assert Older(m - {o}, k) == Older(m, k) - {o};
    }
  }

  /**
   * A resident chunk outlives a batch exactly when enough older entries go first:
   * the probe that found it resident did not make it recent.
   */
  lemma {:induction false} SurvivesBatch(c: Lru, ks: seq<Key>, cap: nat, k: Key)
    requires Stamped(c, cap) && |ks| <= cap && k in c.ticks
    requires forall x :: x in ks ==> x !in c.ticks
    requires forall i, j :: 0 <= i < j < |ks| ==> ks[i] != ks[j]
    ensures var after := PutAll(c, ks, cap).ticks;
      && |after| == Min(cap, |c.ticks| + |ks|)
      && (k in after <==> |Older(c.ticks, k)| >= |c.ticks| + |ks| - cap)
      && (k in after ==> |Older(after, k)| == |Older(c.ticks, k)| - (|c.ticks| + |ks| - |after|))
  {
    hide Trim, Stamped, Older, PutTick, Batched, Submap;
    if ks == [] {
      assert |c.ticks| <= cap by { Capped(c, cap); }
    } else {
      var init, l := ks[..|ks| - 1], ks[|ks| - 1];
      assert ks == init + [l];
      SurvivesBatch(c, init, cap, k);
      NotBatched(c, init, cap, l);
      var b := PutAll(c, init, cap);
      if k in b.ticks {
        PutRank(b, l, cap, k);
      } else {
        PutSize(b, l, cap);
        PutAdds(b, l, cap, k);
      }
    }
  }

  lemma NotBatched(c: Lru, ks: seq<Key>, cap: nat, l: Key)
    requires Stamped(c, cap) && |ks| <= cap
    requires forall k :: k in ks ==> k !in c.ticks
    requires l !in c.ticks && l !in ks
    ensures Stamped(PutAll(c, ks, cap), cap) && l !in PutAll(c, ks, cap).ticks
  {
    BatchResident(c, ks, cap);
  }

  lemma PutAdds(c: Lru, l: Key, cap: nat, k: Key)
    requires Stamped(c, cap) && k !in c.ticks && k != l
    ensures k !in PutTick(c, l, cap).ticks
  {
    hide Trim, Stamped;
    PutKeeps(c, l, cap);
  }

  lemma Capped(c: Lru, cap: nat)
    requires Stamped(c, cap)
    ensures |c.ticks| <= cap
  {
  }

  lemma PutSize(c: Lru, l: Key, cap: nat)
    requires Stamped(c, cap) && l !in c.ticks
    ensures |PutTick(c, l, cap).ticks| == Min(cap, |c.ticks| + 1)
  {
    var m := c.ticks[l := c.tick + 1];
    SizeOfPut(c.ticks, l, c.tick + 1);
    if |m| > cap {
      assert |Trim(m, cap)| == |m| - 1 by { assert Trim(m, cap).Keys == m.Keys - {Oldest(m)}; }
    }
  }

  // ---- When a read finds its chunks ----

  lemma {:induction false} AbsentIs(m: Ticks, cid: string, first: nat, hi: int)
    ensures forall k :: k in Absent(m, cid, first, hi) <==> k.root == cid && first <= k.page <= hi && k !in m
    ensures |Absent(m, cid, first, hi)| <= Max(0, hi - first + 1)
    decreases hi - first
  {
    if first <= hi {
      AbsentIs(m, cid, first, hi - 1);
    }
  }

  lemma SetOfSame(a: seq<Key>, b: seq<Key>)
    requires SameKeys(a, b)
    ensures |a| == |b| && forall k :: k in a <==> k in b
  {
    assert |multiset(a)| == |multiset(b)|;
    assert forall k | k in a :: k in multiset(a);
    assert forall k | k in b :: k in multiset(b);
    assert forall k | k in multiset(b) :: k in b;
    assert forall k | k in multiset(a) :: k in a;
  }

  lemma {:induction false} AbsentOnce(m: Ticks, cid: string, first: nat, hi: int)
    ensures NoRepeats(Absent(m, cid, first, hi))
    decreases hi - first
  {
    if first <= hi {
      AbsentIs(m, cid, first, hi - 1);
      AbsentOnce(m, cid, first, hi - 1);
      var a := Absent(m, cid, first, hi - 1);
      assert forall j | 0 <= j < |a| :: a[j] in a;
    }
  }

  lemma SameOnce(a: seq<Key>, b: seq<Key>)
    requires SameKeys(a, b) && NoRepeats(b)
    ensures NoRepeats(a)
  {
    forall i, j | 0 <= i < j < |a| ensures a[i] != a[j] {
      if a[i] == a[j] {
        RepeatsShow(a, i, j);
        OnceCounts(b, a[i]);
        assert false;
      }
    }
  }

  /**
   * A read whose batch fits the cache finds every chunk exactly when each one that was resident had
   * enough older entries to be evicted first.
   */
  lemma ReadFindsItsChunks(s: Reader, cid: string, first: nat, last: nat, lastChunk: nat, arrived: seq<Key>, cap: nat)
    requires Stamped(s.cache, cap) && first <= last <= lastChunk
    requires var wanted := Wanted(s, cid, first, last, lastChunk);
      SameKeys(arrived, wanted) && |wanted| <= cap
    ensures AllPresent(PutAll(s.cache, arrived, cap).ticks, cid, first, last) <==>
      forall c :: first <= c <= last && Key(cid, c) in s.cache.ticks && arrived != [] ==>
        |Older(s.cache.ticks, Key(cid, c))| >= |s.cache.ticks| + |arrived| - cap
  {
    hide Stamped, SameKeys, PutAll, Older, Absent, Batched;
    var m := s.cache.ticks;
    var wanted := Wanted(s, cid, first, last, lastChunk);
    SetOfSame(arrived, wanted);
    AbsentIs(m, cid, first, High(RunAfter(s, first), last, lastChunk));
    if arrived == [] {
      PutNone(s.cache, cap);
      assert forall c | first <= c <= last :: Key(cid, c) in m || Key(cid, c) in wanted;
    } else {
      AbsentOnce(m, cid, first, High(RunAfter(s, first), last, lastChunk));
      SameOnce(arrived, wanted);
      forall c | first <= c <= last
        ensures Key(cid, c) in PutAll(s.cache, arrived, cap).ticks <==>
          (Key(cid, c) in m ==> |Older(m, Key(cid, c))| >= |m| + |arrived| - cap)
      {
        if Key(cid, c) in m {
          SurvivesBatch(s.cache, arrived, cap, Key(cid, c));
        } else {
          BatchArrives(s.cache, arrived, cap, Key(cid, c));
        }
      }
    }
  }

  lemma PutNone(c: Lru, cap: nat)
    ensures PutAll(c, [], cap) == c
  {
  }

  lemma BatchArrives(c: Lru, ks: seq<Key>, cap: nat, k: Key)
    requires Stamped(c, cap) && |ks| <= cap && k in ks
    requires forall x :: x in ks ==> x !in c.ticks
    ensures k in PutAll(c, ks, cap).ticks
  {
    BatchResident(c, ks, cap);
  }

  /** A read inside one chunk always finds it. */
  lemma OneChunkIsFound(s: Reader, cid: string, at: nat, lastChunk: nat, arrived: seq<Key>, cap: nat)
    requires Stamped(s.cache, cap) && cap >= PREFETCH_CHUNKS + 1 && at <= lastChunk
    requires SameKeys(arrived, Wanted(s, cid, at, at, lastChunk))
    ensures Key(cid, at) in PutAll(s.cache, arrived, cap).ticks
  {
    hide Stamped, PutAll, Older, Absent;
    SetOfSame(arrived, Wanted(s, cid, at, at, lastChunk));
    AbsentIs(s.cache.ticks, cid, at, High(RunAfter(s, at), at, lastChunk));
    ReadFindsItsChunks(s, cid, at, at, lastChunk, arrived, cap);
  }

  /** A read across two chunks loses the first when the cache is full and that chunk is its oldest entry. */
  lemma OldestChunkIsLost(s: Reader, cid: string, at: nat, lastChunk: nat, arrived: seq<Key>, cap: nat)
    requires Stamped(s.cache, cap) && |s.cache.ticks| == cap && cap >= PREFETCH_CHUNKS + 2 && at + 1 <= lastChunk
    requires Key(cid, at) in s.cache.ticks && Older(s.cache.ticks, Key(cid, at)) == {}
    requires Key(cid, at + 1) !in s.cache.ticks
    requires SameKeys(arrived, Wanted(s, cid, at, at + 1, lastChunk))
    ensures Key(cid, at) !in PutAll(s.cache, arrived, cap).ticks
  {
    hide Stamped, PutAll, Absent, SameKeys, Older;
    var hi := High(RunAfter(s, at), at + 1, lastChunk);
    var wanted := Absent(s.cache.ticks, cid, at, hi);
    AbsentIs(s.cache.ticks, cid, at, hi);
    AbsentOnce(s.cache.ticks, cid, at, hi);
    SetOfSame(arrived, wanted);
    SameOnce(arrived, wanted);
    assert Key(cid, at + 1) in wanted;
    SurvivesBatch(s.cache, arrived, cap, Key(cid, at));
  }

  // ---- The number of waves of an ascending scan ----

  /** The read before this one left everything below `upto` resident, and nothing from there on. */
  ghost predicate ResidentUpTo(m: Ticks, cid: string, next: nat, upto: nat) {
    forall c: nat :: next <= c ==> (Key(cid, c) in m <==> c < upto)
  }

  ghost predicate Scanned(s0: Reader, s: Reader, cid: string, first: nat, n: nat, lastChunk: nat, cap: nat) {
    && Stamped(s.cache, cap)
    && s.waves == s0.waves + WavesOf(n)
    && RunAfter(s, first + n) == n
    && ResidentUpTo(s.cache.ticks, cid, first + n, Min(first + FetchedBy(n), lastChunk + 1))
  }

  lemma GetKeeps(c: Lru, k: Key, cap: nat)
    requires Stamped(c, cap)
    ensures Stamped(GetTick(c, k), cap) && GetTick(c, k).ticks.Keys == c.ticks.Keys
  {
    if k in c.ticks {
      StampDistinct(c.ticks, k, c.tick + 1);
      assert GetTick(c, k).ticks.Keys == c.ticks.Keys;
      assert |GetTick(c, k).ticks.Keys| == |c.ticks.Keys|;
    }
  }

  lemma FetchedByStep(n: nat)
    ensures n <= FetchedBy(n)
    ensures n < FetchedBy(n) ==> FetchedBy(n + 1) == FetchedBy(n) && WavesOf(n + 1) == WavesOf(n)
    ensures n == FetchedBy(n) ==>
      FetchedBy(n + 1) == n + (if n < 4 then 1 else 16) && WavesOf(n + 1) == WavesOf(n) + 1
  {
    if n >= 4 {
      var q, next := (n + 11) / 16, (n + 12) / 16;
      assert 16 * q <= n + 11 < 16 * q + 16 && 16 * next <= n + 12 < 16 * next + 16;
      assert FetchedBy(n) == 4 + 16 * q && FetchedBy(n + 1) == 4 + 16 * next;
      assert WavesOf(n) == 4 + q && WavesOf(n + 1) == 4 + next;
    }
  }

  /** The chunks a fetching read brings in are exactly those up to its high mark. */
  lemma FetchExtends(c: Lru, cid: string, at: nat, hi: nat, arrived: seq<Key>, cap: nat)
    requires Stamped(c, cap) && at <= hi < at + cap
    requires ResidentUpTo(c.ticks, cid, at, at)
    requires SameKeys(arrived, Absent(c.ticks, cid, at, hi))
    ensures arrived != []
    ensures Stamped(PutAll(c, arrived, cap), cap)
    ensures ResidentUpTo(PutAll(c, arrived, cap).ticks, cid, at, hi + 1)
  {
    hide Stamped, Absent, SameKeys;
    AbsentIs(c.ticks, cid, at, hi);
    SetOfSame(arrived, Absent(c.ticks, cid, at, hi));
    assert Key(cid, at) in arrived;
    BatchResident(c, arrived, cap);
  }

  lemma ScanStep(s0: Reader, s: Reader, cid: string, first: nat, n: nat, arrived: seq<Key>, lastChunk: nat, cap: nat)
    requires cap >= PREFETCH_CHUNKS + 1 && first + n <= lastChunk
    requires Scanned(s0, s, cid, first, n, lastChunk, cap)
    requires SameKeys(arrived, Wanted(s, cid, first + n, first + n, lastChunk))
    ensures Scanned(s0, AfterRead(s, cid, first + n, first + n, arrived, cap), cid, first, n + 1, lastChunk, cap)
  {
    hide Stamped, Absent, SameKeys, FetchedBy, WavesOf;
    var at, hi := first + n, High(n, first + n, lastChunk);
    FetchedByStep(n);
    SetOfSame(arrived, Wanted(s, cid, at, at, lastChunk));
    var put := PutAll(s.cache, arrived, cap);
    if n == FetchedBy(n) {
      assert Key(cid, at) !in s.cache.ticks;
      FetchExtends(s.cache, cid, at, hi, arrived, cap);
    } else {
      assert arrived == [];
    }
    GetKeeps(put, Key(cid, at), cap);
    GetOne(put, cid, at);
  }

  lemma GetOne(c: Lru, cid: string, at: nat)
    ensures GetAll(c, cid, at, at) == GetTick(c, Key(cid, at))
  {
  }

  /**
   * An ascending scan of `n` single chunks that starts cold costs min(n, 4) + ceil(max(0, n - 4) / 16)
   * fetch waves, in whatever order each batch arrives and whatever else the cache held.
   */
  lemma {:induction false} ScanWaves(s: Reader, cid: string, first: nat, arrived: seq<seq<Key>>, lastChunk: nat, cap: nat)
    requires Stamped(s.cache, cap) && cap >= PREFETCH_CHUNKS + 1
    requires forall c: nat :: first <= c ==> Key(cid, c) !in s.cache.ticks
    requires RunAfter(s, first) == 0
    requires Arrivals(s, cid, first, arrived, lastChunk, cap) && first + |arrived| <= lastChunk + 1
    ensures Scan(s, cid, first, arrived, cap).waves == s.waves + WavesOf(|arrived|)
    ensures Scanned(s, Scan(s, cid, first, arrived, cap), cid, first, |arrived|, lastChunk, cap)
    decreases |arrived|
  {
    hide Stamped, Wanted, SameKeys, AfterRead, Arrivals, ResidentUpTo, WavesOf, FetchedBy;
    if arrived == [] {
      NothingScanned(s, cid, first, lastChunk, cap);
    } else {
      var n: nat := |arrived| - 1;
      ArrivalsPrefix(s, cid, first, arrived, lastChunk, cap);
      ScanWaves(s, cid, first, arrived[..n], lastChunk, cap);
      ScanStep(s, Scan(s, cid, first, arrived[..n], cap), cid, first, n, arrived[n], lastChunk, cap);
    }
  }

  lemma NothingScanned(s: Reader, cid: string, first: nat, lastChunk: nat, cap: nat)
    requires Stamped(s.cache, cap) && first <= lastChunk + 1 && RunAfter(s, first) == 0
    requires forall c: nat :: first <= c ==> Key(cid, c) !in s.cache.ticks
    ensures Scanned(s, s, cid, first, 0, lastChunk, cap)
  {
  }

  lemma ArrivalsPrefix(s: Reader, cid: string, first: nat, arrived: seq<seq<Key>>, lastChunk: nat, cap: nat)
    requires Arrivals(s, cid, first, arrived, lastChunk, cap) && arrived != []
    ensures var n: nat := |arrived| - 1;
      && Arrivals(s, cid, first, arrived[..n], lastChunk, cap)
      && SameKeys(arrived[n], Wanted(Scan(s, cid, first, arrived[..n], cap), cid, first + n, first + n, lastChunk))
  {
    hide Wanted, Scan, SameKeys;
    assert forall i: nat | i < |arrived| - 1 :: arrived[..|arrived| - 1][..i] == arrived[..i];
  }

  // ---- The forward-run counter ----

  /** The first and last chunk of a read. */
  datatype Range = Range(first: nat, last: nat)

  function CounterAfter(c: Lru, asked: seq<Range>): Reader {
    if asked == [] then Reader(c, 0, None, 0)
    else
      var before := CounterAfter(c, asked[..|asked| - 1]);
      Reader(c, RunAfter(before, asked[|asked| - 1].first), Some(asked[|asked| - 1].last), 0)
  }

  /** Read `i` goes on from the one before it: in its last chunk, or in the next. */
  predicate GoesOn(asked: seq<Range>, i: nat)
    requires i < |asked|
  {
    i > 0 && (asked[i].first == asked[i - 1].last || asked[i].first == asked[i - 1].last + 1)
  }

  /** The counter is the length of the forward run the last read ends. */
  lemma {:induction false} CounterIsRun(c: Lru, asked: seq<Range>)
    ensures var n := CounterAfter(c, asked).seqRun;
      && (asked == [] ==> n == 0) && (asked != [] ==> n < |asked| && !GoesOn(asked, |asked| - 1 - n))
      && forall i: nat :: |asked| - n <= i < |asked| ==> GoesOn(asked, i)
    ensures CounterAfter(c, asked).lastEnd == if asked == [] then None else Some(asked[|asked| - 1].last)
    decreases |asked|
  {
    if asked != [] {
      var init := asked[..|asked| - 1];
      CounterIsRun(c, init);
      assert forall i: nat | i < |init| :: GoesOn(init, i) <==> GoesOn(asked, i);
    }
  }
}
