/** The desktop catalog file: ranged reads through the tick-stamped cache. */
module CatalogFiles {
  import opened Basics
  import opened Sequences
  import opened Buffers
  import opened PageLru
  import opened ReadAhead

  const CHUNK_SIZE: nat := 16384

  /** One completed fetch of a batch. */
  datatype Arrival = Arrival(key: Key, bytes: Option<Bytes>)

  /** What a batch brings back, in completion order; `None` when the query is superseded first. */
  type Net = seq<Key> -> Option<seq<Arrival>>

  datatype ReadResult = Done | Eof | Superseded | FetchError | ChunkMissing

  function KeysOf(batch: seq<Arrival>): seq<Key> {
    if batch == [] then [] else KeysOf(batch[..|batch| - 1]) + [batch[|batch| - 1].key]
  }

  /** How many fetches completed before the first that failed. */
  function Intact(batch: seq<Arrival>): (n: nat)
    ensures n <= |batch|
    ensures n == |batch| <==> forall a :: a in batch ==> a.bytes.Some?
  {
    if batch == [] then 0
    else
      assert batch == [batch[0]] + batch[1..];
      if batch[0].bytes.None? then 0 else 1 + Intact(batch[1..])
  }

  /** Each wanted chunk completes once, with its own bytes or an error. */
  ghost predicate Honest(net: Net, content: Key -> Bytes) {
    forall ks :: net(ks).Some? ==>
      && SameKeys(KeysOf(net(ks).value), ks)
      && forall a :: a in net(ks).value && a.bytes.Some? ==> a.bytes.value == content(a.key)
  }

  /** Every stamped key has its own page. */
  ghost predicate Faithful(vals: map<Key, Bytes>, ticks: Ticks, content: Key -> Bytes) {
    vals.Keys == ticks.Keys && forall k :: k in vals ==> vals[k] == content(k)
  }

  lemma SetFaithful(vals: map<Key, Bytes>, ticks: Ticks, content: Key -> Bytes, k: Key, t: nat)
    requires Faithful(vals, ticks, content)
    ensures Faithful(vals[k := content(k)], ticks[k := t], content)
  {
    assert vals[k := content(k)].Keys == ticks[k := t].Keys;
  }

  lemma DropFaithful(vals: map<Key, Bytes>, ticks: Ticks, content: Key -> Bytes, k: Key)
    requires Faithful(vals, ticks, content)
    ensures Faithful(vals - {k}, ticks - {k}, content)
  {
    assert (vals - {k}).Keys == (ticks - {k}).Keys;
  }

  class TickCache {
    var vals: map<Key, Bytes>
    var ticks: Ticks
    var tick: nat
    const cap: nat
    ghost const content: Key -> Bytes

    ghost function State(): Lru
      reads this
    {
      Lru(ticks, tick)
    }

    ghost predicate Valid()
      reads this
    {
      Stamped(State(), cap) && Faithful(vals, ticks, content)
    }

    constructor (cap: nat, ghost content: Key -> Bytes)
      requires cap > 0
      ensures Valid() && ticks == map[] && tick == 0 && this.cap == cap && this.content == content
    {
      vals, ticks, tick := map[], map[], 0;
      this.cap, this.content := cap, content;
    }

    method Get(k: Key) returns (r: Option<Bytes>)
      requires Valid()
      modifies this
      ensures Valid() && State() == GetTick(old(State()), k)
      ensures r == if k in old(ticks) then Some(content(k)) else None
    {
      hide Stamped;
      GetKeeps(State(), k, cap);
      tick := tick + 1;
      if k !in vals {
        return None;
      }
      ticks := ticks[k := tick];
      return Some(vals[k]);
    }

    method Put(k: Key, v: Bytes)
      requires Valid() && v == content(k)
      modifies this
      ensures Valid() && State() == PutTick(old(State()), k, cap)
    {
      hide Trim, Distinct, Stamped, IsOldest, Faithful;
      ghost var was := State();
      PutKeeps(was, k, cap);
      TrimIsShort(was, k, cap);
      SetFaithful(vals, ticks, content, k, tick + 1);
      tick := tick + 1;
      vals, ticks := vals[k := v], ticks[k := tick];
      ghost var full := ticks;
      assert PutTick(was, k, cap) == Lru(Trim(full, cap), tick);
      TrimNothing(full, cap);
      while |ticks| > cap
        invariant Faithful(vals, ticks, content) && tick == was.tick + 1
        invariant ticks == full || (ticks == Trim(full, cap) && |ticks| <= cap)
        decreases |ticks|
      {
        var lru := MinByTick(ticks);
        TrimRemoves(ticks, lru, cap);
        DropFaithful(vals, ticks, content, lru);
        vals, ticks := vals - {lru}, ticks - {lru};
      }
    }
  }

  /** The map may be walked in any order: stamps are distinct, so the minimum is one key. */
  method MinByTick(m: Ticks) returns (k: Key)
    requires m != map[]
    ensures IsOldest(m, k)
  {
    OldestExists(m);
    k :| k in m && forall x :: x in m ==> m[k] <= m[x];
  }

  lemma TrimRemoves(m: Ticks, k: Key, cap: nat)
    requires |m| > cap && Distinct(m) && IsOldest(m, k)
    ensures Trim(m, cap) == m - {k} && |m - {k}| == |m| - 1
  {
    OldestIsUnique(m, k);
    SizeOfDrop(m, k);
  }

  lemma OldestIsUnique(m: Ticks, k: Key)
    requires m != map[] && Distinct(m) && IsOldest(m, k)
    ensures k == Oldest(m)
  {
    OldestIs(m);
    assert m[k] <= m[Oldest(m)] && m[Oldest(m)] <= m[k];
  }

  lemma TrimNothing(m: Ticks, cap: nat)
    ensures |m| <= cap ==> Trim(m, cap) == m
  {
  }

  lemma TrimIsShort(c: Lru, k: Key, cap: nat)
    requires Stamped(c, cap)
    ensures |Trim(c.ticks[k := c.tick + 1], cap)| <= cap && Distinct(c.ticks[k := c.tick + 1])
  {
    StampDistinct(c.ticks, k, c.tick + 1);
    if k in c.ticks {
      assert c.ticks[k := c.tick + 1].Keys == c.ticks.Keys;
      assert |c.ticks[k := c.tick + 1]| == |c.ticks[k := c.tick + 1].Keys| && |c.ticks| == |c.ticks.Keys|;
    } else {
      SizeOfPut(c.ticks, k, c.tick + 1);
    }
    TrimKeeps(c.ticks[k := c.tick + 1], cap);
  }

  /** The bytes of chunk `c`. */
  ghost function ChunkOf(file: Bytes, c: nat): Bytes
    requires c * CHUNK_SIZE < |file|
  {
    file[c * CHUNK_SIZE..Min((c + 1) * CHUNK_SIZE, |file|)]
  }

  class CatalogFile {
    const cid: string
    const size: nat
    const cache: TickCache
    var seqRun: nat
    var lastEnd: Option<nat>
    var waves: nat

    constructor (cid: string, size: nat, cache: TickCache)
      ensures this.cid == cid && this.size == size && this.cache == cache
      ensures seqRun == 0 && lastEnd == None && waves == 0
    {
      this.cid, this.size, this.cache := cid, size, cache;
      seqRun, lastEnd, waves := 0, None, 0;
    }

    ghost function State(): Reader
      reads this, cache
    {
      Reader(cache.State(), seqRun, lastEnd, waves)
    }

    /** The cache's pages of this file are the chunks of `file`. */
    ghost predicate Backs(file: Bytes)
      reads cache
    {
      && |file| == size
      && forall c: nat :: c * CHUNK_SIZE < size ==> cache.content(Key(cid, c)) == ChunkOf(file, c)
    }

    function LastChunk(): nat {
      if size == 0 then 0 else (size - 1) / CHUNK_SIZE
    }

    function Missing(ticks: Ticks, first: nat, last: nat, run: nat): seq<Key> {
      if AllPresent(ticks, cid, first, last) then []
      else Absent(ticks, cid, first, High(run, last, LastChunk()))
    }

    /** Stores a batch in the order it came, up to the first error. */
    method Keep(batch: seq<Arrival>) returns (r: ReadResult)
      requires cache.Valid()
      requires forall a :: a in batch && a.bytes.Some? ==> a.bytes.value == cache.content(a.key)
      modifies cache
      ensures cache.Valid()
      ensures r == Done || r == FetchError
      ensures r == Done <==> forall a :: a in batch ==> a.bytes.Some?
      ensures cache.State() == PutAll(old(cache.State()), KeysOf(batch[..Intact(batch)]), cache.cap)
    {
      hide PutTick, Stamped, Faithful, Intact, PutAll, KeysOf;
      var n: nat := 0;
      PutNone(cache.State(), cache.cap);
      assert batch[..0] == [] && KeysOf([]) == [] by { NoKeys(); }
      while n < |batch|
        invariant n <= |batch| && cache.Valid()
        invariant forall k :: 0 <= k < n ==> batch[k].bytes.Some?
        invariant cache.State() == PutAll(old(cache.State()), KeysOf(batch[..n]), cache.cap)
      {
        StoreNext(old(cache.State()), batch, n, cache.cap);
        if batch[n].bytes == None {
          IntactIs(batch, n);
          return FetchError;
        }
        if batch[n].key !in cache.ticks {
          cache.Put(batch[n].key, batch[n].bytes.value);
        }
        n := n + 1;
      }
      assert batch[..n] == batch;
      IntactIs(batch, n);
      return Done;
    }

    /** Fetches what is missing of `[first, last]`, with the chunks ahead once a forward scan is established. */
    method EnsureChunks(first: nat, last: nat, cancelled: bool, net: Net) returns (r: ReadResult, ghost arrived: seq<Key>)
      requires cache.Valid() && Honest(net, cache.content)
      modifies this`waves, cache
      ensures cache.Valid()
      ensures cancelled ==> arrived == [] && r == Superseded && cache.State() == old(cache.State()) && waves == old(waves)
      ensures !cancelled ==>
        var missing := Missing(old(cache.ticks), first, last, seqRun);
        && SameKeys(arrived, missing)
        && waves == old(waves) + (if arrived == [] then 0 else 1)
        && r == if missing == [] then Done
                else if net(missing) == None then Superseded
                else if exists a | a in net(missing).value :: a.bytes == None then FetchError
                else Done
      ensures r == Done ==> cache.State() == PutAll(old(cache.State()), arrived, cache.cap)
      ensures r == Superseded ==> cache.State() == old(cache.State())
      ensures r == FetchError ==>
        StoredIntact(old(cache.State()), cache.State(), net(Missing(old(cache.ticks), first, last, seqRun)), cache.cap)
    {
      hide PutTick, Stamped, Faithful, SameKeys, Absent, PutAll, AllPresent, Intact;
      arrived := [];
      if cancelled {
        return Superseded, arrived;
      }
      var missing := Missing(cache.ticks, first, last, seqRun);
      SameAsItself(missing);
      PutNone(cache.State(), cache.cap);
      if missing == [] {
        return Done, arrived;
      }
      arrived := missing;
      waves := waves + 1;
      var fetched := net(missing);
      if fetched == None {
        return Superseded, arrived;
      }
      arrived := KeysOf(fetched.value);
      SetOfSame(arrived, missing);
      r := Keep(fetched.value);
      assert fetched.value[..|fetched.value|] == fetched.value;
    }

    /** Takes the chunks out of the cache, each becoming the most recent in turn. */
    method Collect(first: nat, last: nat) returns (chunks: Option<seq<Bytes>>)
      requires cache.Valid() && first <= last
      modifies cache
      ensures cache.Valid()
      ensures chunks.Some? <==> AllPresent(old(cache.ticks), cid, first, last)
      ensures chunks.None? ==> Misses(old(cache.State()), cache.State(), cid, first, last)
      ensures chunks.Some? ==>
        && cache.State() == GetAll(old(cache.State()), cid, first, last)
        && |chunks.value| == last - first + 1
        && AreChunks(chunks.value, cache.content, cid, first)
    {
      hide Stamped, Faithful, AllPresent, AreChunks, GetTick;
      var got: seq<Bytes> := [];
      var c := first;
      ghost var was := cache.State();
      PresentNone(was.ticks, cid, first, cache.content);
      while c <= last
        invariant first <= c <= last + 1 && cache.Valid()
        invariant cache.State() == GetAll(was, cid, first, c - 1)
        invariant cache.ticks.Keys == was.ticks.Keys && AllPresent(was.ticks, cid, first, c - 1)
        invariant |got| == c - first && AreChunks(got, cache.content, cid, first)
      {
        PresentNext(was.ticks, cid, first, c, last);
        if Key(cid, c) in was.ticks {
          ChunksNext(got, cache.content, cid, first);
        }
        GetKeeps(cache.State(), Key(cid, c), cache.cap);
        var page := cache.Get(Key(cid, c));
        if page == None {
          assert MissesAt(was, cache.State(), cid, first, last, c);
          return None;
        }
        got := got + [page.value];
        c := c + 1;
      }
      return Some(got);
    }

    /** Copies each chunk's part of `[offset, offset + buf.Length)`. */
    method CopyOut(buf: array<byte>, offset: nat, first: nat, last: nat, chunks: seq<Bytes>, ghost file: Bytes)
      requires |file| == size && 0 < buf.Length && offset + buf.Length <= size
      requires first == offset / CHUNK_SIZE && last == (offset + buf.Length - 1) / CHUNK_SIZE
      requires |chunks| == last - first + 1 && Backs(file) && AreChunks(chunks, cache.content, cid, first)
      modifies buf
      ensures buf[..] == file[offset..offset + buf.Length]
    {
      hide ChunkOf, Copied, AreChunks, Filled;
      var end := offset + buf.Length;
      var i: nat := 0;
      CopiedFrom(offset, end, first);
      NothingFilled(buf[..], file, offset);
      while i < |chunks|
        invariant i <= |chunks| && (i == |chunks| ==> Copied(offset, end, first, i) == end)
        invariant Filled(buf[..], file, offset, Copied(offset, end, first, i))
      {
        SegmentIs(file, offset, end, first, last, i);
        ChunkIs(chunks, cache.content, cid, first, i);
        var start := (first + i) * CHUNK_SIZE;
        var segStart := Max(offset, start);
        var segEnd := Min(end, start + |chunks[i]|);
        if segEnd > segStart {
          CopySegment(buf, offset, segStart, chunks[i][segStart - start..segEnd - start], file);
        }
        i := i + 1;
      }
      AllFilled(buf[..], file, offset);
    }

    /** The forward-run counter, advanced by every read, cached or not. */
    method Advance(first: nat)
      modifies this`seqRun
      ensures seqRun == RunAfter(old(State()), first)
    {
      var advancing := lastEnd != None && (first == lastEnd.value || first == lastEnd.value + 1);
      seqRun := if advancing then seqRun + 1 else 0;
    }

    method ReadExactAt(buf: array<byte>, offset: nat, cancelled: bool, net: Net, ghost file: Bytes)
      returns (r: ReadResult, ghost arrived: seq<Key>)
      requires cache.Valid() && Honest(net, cache.content) && Backs(file)
      modifies this, cache, buf
      ensures cache.Valid()
      ensures buf.Length == 0 ==> r == Done && State() == old(State())
      ensures r == Eof <==> buf.Length > 0 && offset + buf.Length > size
      ensures r == Eof ==> State() == old(State())
      ensures r != Done ==> buf[..] == old(buf[..]) && lastEnd == old(lastEnd)
      ensures buf.Length > 0 && r != Eof ==> seqRun == RunAfter(old(State()), offset / CHUNK_SIZE)
      ensures waves == old(waves) + if arrived == [] then 0 else 1
      ensures r == Superseded ==> cache.State() == old(cache.State())
      ensures r == FetchError ==>
        var first, last := offset / CHUNK_SIZE, (offset + buf.Length - 1) / CHUNK_SIZE;
        StoredIntact(old(cache.State()), cache.State(), net(Wanted(old(State()), cid, first, last, LastChunk())), cache.cap)
      ensures r == ChunkMissing ==>
        var first, last := offset / CHUNK_SIZE, (offset + buf.Length - 1) / CHUNK_SIZE;
        Misses(PutAll(old(cache.State()), arrived, cache.cap), cache.State(), cid, first, last)
      ensures r == Done ==> offset + buf.Length <= size || buf.Length == 0
      ensures buf.Length > 0 && (r == Done || r == ChunkMissing) ==>
        var first, last := offset / CHUNK_SIZE, (offset + buf.Length - 1) / CHUNK_SIZE;
        && SameKeys(arrived, Wanted(old(State()), cid, first, last, LastChunk()))
        && (r == Done <==> AllPresent(PutAll(old(cache.State()), arrived, cache.cap).ticks, cid, first, last))
        && (r == Done ==> State() == AfterRead(old(State()), cid, first, last, arrived, cache.cap))
      ensures buf.Length > 0 && r == Done ==> buf[..] == file[offset..offset + buf.Length]
    {
      hide PutTick, Stamped, Faithful, SameKeys, Absent, PutAll, AllPresent, GetAll, ChunkOf, StoredIntact, Misses, RunAfter;
      arrived := [];
      if buf.Length == 0 {
        return Done, arrived;
      }
      var end := offset + buf.Length;
      if end > size {
        return Eof, arrived;
      }
      var first: nat, last: nat := offset / CHUNK_SIZE, (end - 1) / CHUNK_SIZE;
      Advance(first);
      r, arrived := EnsureChunks(first, last, cancelled, net);
      if r != Done {
        return r, arrived;
      }
      var chunks := Collect(first, last);
      if chunks == None {
        return ChunkMissing, arrived;
      }
      CopyOut(buf, offset, first, last, chunks.value, file);
      lastEnd := Some(last);
      return Done, arrived;
    }
  }

  /** The buffer holds the file from `offset` up to `to`. */
  ghost predicate Filled(out: Bytes, file: Bytes, offset: nat, to: int) {
    && offset <= to <= |file| && to - offset <= |out|
    && out[..to - offset] == file[offset..to]
  }

  lemma NothingFilled(out: Bytes, file: Bytes, offset: nat)
    requires offset <= |file|
    ensures Filled(out, file, offset, offset)
  {
  }

  lemma AllFilled(out: Bytes, file: Bytes, offset: nat)
    requires Filled(out, file, offset, offset + |out|)
    ensures out == file[offset..offset + |out|]
  {
    assert out[..|out|] == out;
  }

  method CopySegment(buf: array<byte>, offset: nat, from: nat, part: Bytes, ghost file: Bytes)
    requires Filled(buf[..], file, offset, from)
    requires from - offset + |part| <= buf.Length && from + |part| <= |file| && part == file[from..from + |part|]
    modifies buf
    ensures Filled(buf[..], file, offset, from + |part|)
  {
    Put(buf, from - offset, part);
    assert file[offset..from + |part|] == file[offset..from] + part;
  }

  ghost predicate AreChunks(chunks: seq<Bytes>, content: Key -> Bytes, cid: string, first: nat) {
    forall i :: 0 <= i < |chunks| ==> chunks[i] == content(Key(cid, first + i))
  }

  lemma ChunkIs(chunks: seq<Bytes>, content: Key -> Bytes, cid: string, first: nat, i: nat)
    requires AreChunks(chunks, content, cid, first) && i < |chunks|
    ensures chunks[i] == content(Key(cid, first + i))
  {
  }

  lemma ChunksNext(chunks: seq<Bytes>, content: Key -> Bytes, cid: string, first: nat)
    requires AreChunks(chunks, content, cid, first)
    ensures AreChunks(chunks + [content(Key(cid, first + |chunks|))], content, cid, first)
  {
  }

  lemma PresentNone(m: Ticks, cid: string, first: nat, content: Key -> Bytes)
    ensures AllPresent(m, cid, first, first - 1) && AreChunks([], content, cid, first)
  {
  }

  lemma PresentNext(m: Ticks, cid: string, first: nat, c: nat, last: nat)
    requires AllPresent(m, cid, first, c - 1) && first <= c <= last
    ensures AllPresent(m, cid, first, c) <==> Key(cid, c) in m
    ensures Key(cid, c) !in m ==> !AllPresent(m, cid, first, last)
  {
  }

  lemma ChunkLength(file: Bytes, c: nat)
    requires c * CHUNK_SIZE < |file|
    ensures c * CHUNK_SIZE + |ChunkOf(file, c)| == Min(c * CHUNK_SIZE + CHUNK_SIZE, |file|)
  {
  }

  lemma SegmentOf(file: Bytes, c: nat, from: nat, to: nat)
    requires c * CHUNK_SIZE < |file| && c * CHUNK_SIZE <= from <= to <= c * CHUNK_SIZE + |ChunkOf(file, c)|
    ensures to <= |file|
    ensures ChunkOf(file, c)[from - c * CHUNK_SIZE..to - c * CHUNK_SIZE] == file[from..to]
  {
  }

  /** How far the copy has come after `i` chunks. */
  function Copied(offset: nat, end: nat, first: nat, i: nat): int {
    Max(offset, Min(end, (first + i) * CHUNK_SIZE))
  }

  lemma CopiedFrom(offset: nat, end: nat, first: nat)
    requires offset < end && first == offset / CHUNK_SIZE
    ensures Copied(offset, end, first, 0) == offset
  {
  }

  lemma CopiedStep(offset: nat, end: nat, first: nat, last: nat, i: nat, size: nat)
    requires offset < end <= size && first == offset / CHUNK_SIZE && last == (end - 1) / CHUNK_SIZE && first + i <= last
    ensures var start := (first + i) * CHUNK_SIZE;
      && Copied(offset, end, first, i) == Max(offset, start)
      && Copied(offset, end, first, i + 1) == Min(end, start + CHUNK_SIZE) == Min(end, Min(start + CHUNK_SIZE, size))
      && Copied(offset, end, first, i) < Copied(offset, end, first, i + 1)
    ensures first + i == last ==> Copied(offset, end, first, i + 1) == end
  {
  }

  /** The part of chunk `first + i` that is wanted: from where the copy has come to where it comes next. */
  lemma SegmentIs(file: Bytes, offset: nat, end: nat, first: nat, last: nat, i: nat)
    requires offset < end <= |file| && first == offset / CHUNK_SIZE && last == (end - 1) / CHUNK_SIZE && first + i <= last
    ensures (first + i) * CHUNK_SIZE < |file|
    ensures var start, chunk := (first + i) * CHUNK_SIZE, ChunkOf(file, first + i);
      var from, to := Max(offset, start), Min(end, start + |chunk|);
      && from == Copied(offset, end, first, i) < to == Copied(offset, end, first, i + 1)
      && start <= from && to <= start + |chunk| && chunk[from - start..to - start] == file[from..to]
    ensures first + i == last ==> Copied(offset, end, first, i + 1) == end
  {
    hide ChunkOf, Copied;
    CopiedStep(offset, end, first, last, i, |file|);
    ChunkLength(file, first + i);
    var start := (first + i) * CHUNK_SIZE;
    SegmentOf(file, first + i, Max(offset, start), Min(end, start + |ChunkOf(file, first + i)|));
  }

  /** A failing batch is stored up to its first error. */
  ghost predicate StoredIntact(was: Lru, now: Lru, fetched: Option<seq<Arrival>>, cap: nat) {
    fetched.Some? && now == PutAll(was, KeysOf(fetched.value[..Intact(fetched.value)]), cap)
  }

  /** Lookups from `first` on that stop at `c`, the first chunk not there. */
  ghost predicate MissesAt(was: Lru, now: Lru, cid: string, first: nat, last: nat, c: nat) {
    && first <= c <= last && Key(cid, c) !in was.ticks && AllPresent(was.ticks, cid, first, c - 1)
    && now == GetAll(was, cid, first, c)
  }

  ghost predicate Misses(was: Lru, now: Lru, cid: string, first: nat, last: nat) {
    exists c: nat :: MissesAt(was, now, cid, first, last, c)
  }

  lemma NoKeys()
    ensures KeysOf([]) == []
  {
  }

  /** Storing one more of a batch. */
  lemma StoreNext(was: Lru, batch: seq<Arrival>, n: nat, cap: nat)
    requires n < |batch|
    ensures PutAll(was, KeysOf(batch[..n + 1]), cap) ==
      var before := PutAll(was, KeysOf(batch[..n]), cap);
      if batch[n].key in before.ticks then before else PutTick(before, batch[n].key, cap)
  {
    hide PutTick;
    KeysOfNext(batch, n);
    var ks := KeysOf(batch[..n]);
    assert (ks + [batch[n].key])[..|ks|] == ks;
  }

  lemma {:induction false} IntactIs(batch: seq<Arrival>, n: nat)
    requires n <= |batch| && forall k :: 0 <= k < n ==> batch[k].bytes.Some?
    requires n < |batch| ==> batch[n].bytes.None?
    ensures Intact(batch) == n
    decreases |batch|
  {
    if n > 0 {
      IntactIs(batch[1..], n - 1);
    }
  }

  lemma SameAsItself(a: seq<Key>)
    ensures SameKeys(a, a)
  {
  }

  lemma KeysOfNext(batch: seq<Arrival>, n: nat)
    requires n < |batch|
    ensures KeysOf(batch[..n + 1]) == KeysOf(batch[..n]) + [batch[n].key]
    ensures batch[n] in batch && batch[..n + 1] == batch[..n] + [batch[n]]
    ensures var ks := KeysOf(batch[..n + 1]);
      ks[..|ks| - 1] == KeysOf(batch[..n])
  {
    assert batch[..n + 1][..n] == batch[..n];
  }
}
