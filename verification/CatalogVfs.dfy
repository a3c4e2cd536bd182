/** The page scheduler and the read-only file system over it, run beside other queries. */
module CatalogVfs {
  import opened Basics
  import opened Sequences
  import opened PageLru
  import opened Catalog
  import opened Buffers

  class PageScheduler {
    const root: string
    const pageCount: nat
    const cache: PageCache
    var seqRun: nat
    var lastEnd: Option<int>
    var epoch: nat
    var waves: nat

    constructor (root: string, pageCount: nat, cache: PageCache)
      ensures this.root == root && this.pageCount == pageCount && this.cache == cache
      ensures seqRun == 0 && lastEnd == None && epoch == 0 && waves == 0
    {
      this.root, this.pageCount, this.cache := root, pageCount, cache;
      seqRun, lastEnd, epoch, waves := 0, None, 0, 0;
    }

    method Cancel()
      modifies this
      ensures epoch == old(epoch) + 1
      ensures seqRun == old(seqRun) && lastEnd == old(lastEnd) && waves == old(waves)
    {
      epoch := epoch + 1;
    }

    /** Advances the forward-run counter. */
    method Begin(first: int, last: int)
      modifies this
      ensures seqRun == RunAfter(old(seqRun), old(lastEnd), first) && lastEnd == Some(last)
      ensures epoch == old(epoch) && waves == old(waves)
    {
      var advancing := lastEnd != None && (first == lastEnd.value || first == lastEnd.value + 1);
      seqRun := if advancing then seqRun + 1 else 0;
      lastEnd := Some(last);
    }

    /** The other queries' turn. */
    method Interleave(ops: seq<Op>)
      requires cache.Valid() && Faithful(ops, cache.content)
      modifies this, cache
      ensures cache.Valid() && cache.order == Play(old(cache.order), ops, cache.cap)
      ensures epoch == old(epoch) + Cancels(ops) && waves == old(waves)
      ensures Quiet(ops) ==> seqRun == old(seqRun) && lastEnd == old(lastEnd)
    {
      hide Touch, Admit;
      var n: nat := 0;
      while n < |ops|
        invariant n <= |ops| && cache.Valid()
        invariant cache.order == Play(old(cache.order), ops[..n], cache.cap)
        invariant epoch == old(epoch) + Cancels(ops[..n]) && waves == old(waves)
        invariant Quiet(ops) ==> seqRun == old(seqRun) && lastEnd == old(lastEnd)
      {
        assert ops[..n + 1][..n] == ops[..n] && ops[n] in ops;
        match ops[n] {
          case Hit(k) => var _ := cache.Get(k);
          case Store(k, v) => cache.Put(k, v);
          case Began(first, last) => Begin(first, last);
          case Cancel => Cancel();
        }
        n := n + 1;
      }
      assert ops[..n] == ops;
    }

    /** Touches the resident pages of `[first, hi]` and lists the others. */
    method Scan(first: int, hi: int) returns (missing: seq<Key>)
      requires cache.Valid()
      modifies cache
      ensures cache.Valid() && cache.order == TouchAll(old(cache.order), Window(root, first, hi))
      ensures missing == Missing(old(cache.order), Window(root, first, hi))
    {
      hide Touch;
      missing := [];
      var i := first;
      while i <= hi
        invariant first <= i && (i <= hi + 1 || i == first)
        invariant cache.Valid() && cache.order == TouchAll(old(cache.order), Window(root, first, i - 1))
        invariant missing == Missing(old(cache.order), Window(root, first, i - 1))
        decreases hi - i
      {
        ScanStep(old(cache.order), root, first, i, cache.cap);
        var page := cache.Get(Key(root, i));
        if page == None {
          missing := missing + [Key(root, i)];
        }
        i := i + 1;
      }
      assert Window(root, first, i - 1) == Window(root, first, hi);
    }

    /** Stores a batch in page order. */
    method Keep(ks: seq<Key>, pages: seq<Bytes>)
      requires cache.Valid() && |ks| == |pages|
      requires forall j :: 0 <= j < |ks| ==> pages[j] == cache.content(ks[j])
      modifies cache
      ensures cache.Valid() && cache.order == AdmitAll(old(cache.order), ks, cache.cap)
    {
      hide Admit;
      var n: nat := 0;
      while n < |ks|
        invariant n <= |ks| && cache.Valid() && cache.order == AdmitAll(old(cache.order), ks[..n], cache.cap)
      {
        assert ks[..n + 1][..n] == ks[..n];
        cache.Put(ks[n], pages[n]);
        n := n + 1;
      }
      assert ks[..n] == ks;
    }

    /** One batch: each task waits its turn and is skipped once the query is superseded. */
    method Fetch(missing: seq<Key>, during: nat -> seq<Op>, fetch: Key -> Option<Bytes>)
      returns (pages: seq<Bytes>, failed: bool)
      requires cache.Valid() && Honest(fetch, cache.content)
      requires forall j: nat :: Faithful(during(j), cache.content)
      modifies this, cache
      ensures cache.Valid()
      ensures cache.order == Play(old(cache.order), Upto(during, |missing| + 1), cache.cap)
      ensures epoch == old(epoch) + Cancels(Upto(during, |missing| + 1)) && waves == old(waves)
      ensures failed ==> exists k | k in missing :: fetch(k) == None
      ensures !failed && epoch == old(epoch) ==>
        && |pages| == |missing|
        && forall j :: 0 <= j < |missing| ==> fetch(missing[j]) == Some(pages[j])
      ensures Quiet(Upto(during, |missing| + 1)) ==>
        seqRun == old(seqRun) && lastEnd == old(lastEnd)
    {
      hide Play, Quiet, Cancels;
      pages, failed := [], false;
      var mine := epoch;
      var j: nat := 0;
      PlayNothing(cache.order, cache.cap);
      while j < |missing|
        invariant j <= |missing| && cache.Valid()
        invariant cache.order == Play(old(cache.order), Upto(during, j), cache.cap)
        invariant epoch == mine + Cancels(Upto(during, j)) && waves == old(waves)
        invariant failed ==> exists k | k in missing :: fetch(k) == None
        invariant !failed && epoch == mine ==>
          |pages| == j && forall i :: 0 <= i < j ==> fetch(missing[i]) == Some(pages[i])
        invariant Quiet(Upto(during, j)) ==>
          seqRun == old(seqRun) && lastEnd == old(lastEnd)
      {
        PlayAppend(old(cache.order), Upto(during, j), during(j), cache.cap);
        QuietParts(Upto(during, j), during(j));
        Interleave(during(j));
        if epoch == mine {
          var page := fetch(missing[j]);
          if page == None {
            failed := true;
          } else {
            pages := pages + [page.value];
          }
        }
        j := j + 1;
      }
      PlayAppend(old(cache.order), Upto(during, j), during(j), cache.cap);
      QuietParts(Upto(during, j), during(j));
      Interleave(during(j));
    }

    /** What `Ensure(first, last)` asks for: the range, and the pages ahead once a forward scan is established. */
    function Asked(first: int, last: int): seq<Key>
      reads this
    {
      Window(root, first, HighPage(RunAfter(seqRun, lastEnd, first), last, pageCount))
    }

    method Ensure(first: int, last: int, during: nat -> seq<Op>, fetch: Key -> Option<Bytes>)
      returns (r: Outcome, ghost ops: seq<Op>)
      requires cache.Valid() && Honest(fetch, cache.content)
      requires forall j: nat :: Faithful(during(j), cache.content)
      modifies this, cache
      ensures cache.Valid()
      ensures ops == Upto(during, |Missing(old(cache.order), old(Asked(first, last)))| + 1)
      ensures cache.order == EnsureOrder(old(cache.order), old(Asked(first, last)), ops, cache.cap, r)
      ensures Missing(old(cache.order), old(Asked(first, last))) == [] ==> r == Resident && waves == old(waves)
      ensures Missing(old(cache.order), old(Asked(first, last))) != [] ==>
        && waves == old(waves) + 1
        && (r == Cancelled ==> Cancels(ops) > 0)
        && (r == Resident ==> Cancels(ops) == 0)
      ensures r == FetchFailed ==> exists k | k in old(Asked(first, last)) :: fetch(k) == None
      ensures Quiet(ops) ==>
        seqRun == RunAfter(old(seqRun), old(lastEnd), first) && lastEnd == Some(last)
    {
      hide Touch, Admit, Play, TouchAll, AdmitAll, Window, Upto, Cancels;
      MissingIs(cache.order, Asked(first, last));
      Begin(first, last);
      var mine := epoch;
      var hi := if seqRun >= PREFETCH_MIN_RUN then Min(last + PREFETCH_PAGES, pageCount - 1) else last;
      var missing := Scan(first, hi);
      ops := Upto(during, |missing| + 1);
      if |missing| == 0 {
        return Resident, ops;
      }
      waves := waves + 1;
      var pages, failed := Fetch(missing, during, fetch);
      if failed {
        return FetchFailed, ops;
      }
      if epoch != mine {
        return Cancelled, ops;
      }
      Keep(missing, pages);
      return Resident, ops;
    }

    /** The page, when it is resident. */
    method Page(i: int) returns (p: Option<Bytes>)
      requires cache.Valid()
      modifies cache
      ensures cache.Valid() && cache.order == Touch(old(cache.order), Key(root, i))
      ensures p == if Key(root, i) in old(cache.order) then Some(cache.content(Key(root, i))) else None
    {
      p := cache.Get(Key(root, i));
    }
  }

  // ---- The file system ----

  datatype Status = ReadOk | ShortRead | IoErr | Thrown

  /** `n` bytes of the file from `off`, zero past its end. */
  function Padded(file: Bytes, off: nat, n: nat): (r: Bytes)
    ensures |r| == n
    ensures forall j :: 0 <= j < n ==> r[j] == if off + j < |file| then file[off + j] else 0
  {
    if off + n <= |file| then file[off..off + n]
    else if off <= |file| then file[off..] + Zeros(off + n - |file|)
    else Zeros(n)
  }

  function FileSize(pageSize: nat, pageCount: nat): nat { pageSize * pageCount }

  function PageOf(at: int, pageSize: nat): (p: int)
    requires pageSize > 0
    ensures at >= 0 ==> p >= 0
  {
    at / pageSize
  }

  function Within(at: int, pageSize: nat): nat
    requires pageSize > 0
  {
    at % pageSize
  }

  function PagesOf(content: Key -> Bytes, root: string, pageCount: nat): seq<Bytes> {
    seq(pageCount, i => content(Key(root, i)))
  }

  class CatalogVFS {
    const sched: PageScheduler
    const pageSize: nat

    constructor (sched: PageScheduler, pageSize: nat)
      ensures this.sched == sched && this.pageSize == pageSize
    {
      this.sched, this.pageSize := sched, pageSize;
    }

    /** The flat file the pages stand for. */
    ghost function File(): Bytes
      reads sched.cache
    {
      Concat(PagesOf(sched.cache.content, sched.root, sched.pageCount))
    }

    ghost predicate Paged()
      reads sched.cache
    {
      forall i: nat :: i < sched.pageCount ==> |sched.cache.content(Key(sched.root, i))| == pageSize
    }

    method JRead(buf: array<byte>, iOffset: nat, during: nat -> seq<Op>, after: seq<Op>, fetch: Key -> Option<Bytes>)
      returns (r: Status, ghost wanted: seq<Key>, ghost ops: seq<Op>)
      requires sched.cache.Valid() && Paged() && Honest(fetch, sched.cache.content)
      requires Faithful(after, sched.cache.content) && forall j: nat :: Faithful(during(j), sched.cache.content)
      modifies sched, sched.cache, buf
      ensures sched.cache.Valid()
      ensures r == ReadOk || r == ShortRead ==> buf[..] == Padded(File(), iOffset, buf.Length)
      ensures r == ReadOk ==> iOffset < |File()| && iOffset + buf.Length <= |File()|
      ensures r == ShortRead ==> iOffset >= |File()| || iOffset + buf.Length > |File()|
      ensures r == IoErr ==> buf[..] == old(buf[..]) && Cancels(ops) > 0
      ensures r == Thrown ==>
        || (exists k | k in wanted :: fetch(k) == None)
        || |wanted| + CacheOps(ops) + CacheOps(after) > sched.cache.cap
      ensures pageSize > 0 && iOffset < |File()| ==>
        wanted == old(sched.Asked(PageOf(iOffset, pageSize), PageOf(Min(iOffset + buf.Length, |File()|) - 1, pageSize)))
      ensures exists n: nat :: n <= |wanted| + 1 && ops == Upto(during, n)
      ensures pageSize > 0 ==> |wanted| <= PageOf(buf.Length, pageSize) + 2 + PREFETCH_PAGES
    {
      hide Touch, Admit, Play, TouchAll, AdmitAll, Window, Upto, Cancels, CacheOps, EnsureOrder, HighPage, Missing;
      hide Concat, PagesOf, NoRepeats, FileSize, PageOf, Padded;
      var size := FileSize(pageSize, sched.pageCount);
      wanted, ops := [], [];
      assert Upto(during, 0) == [] by { UptoNothing(during); }
      FileLength(sched.cache.content, sched.root, sched.pageCount, pageSize);
      if iOffset >= size {
        Fill(buf, 0);
        PastTheEnd(File(), iOffset, buf.Length);
        return ShortRead, wanted, ops;
      }
      RangeOfPages(iOffset, buf.Length, pageSize, sched.pageCount);
      var first := PageOf(iOffset, pageSize);
      var last := PageOf(Min(iOffset + buf.Length, size) - 1, pageSize);
      wanted := sched.Asked(first, last);
      CoversRead(sched.root, first, last, RunAfter(sched.seqRun, sched.lastEnd, first), sched.pageCount);
      ghost var order := sched.cache.order;
      MissingIs(order, wanted);
      var outcome;
      outcome, ops := sched.Ensure(first, last, during, fetch);
      if outcome == Cancelled {
        return IoErr, wanted, ops;
      }
      if outcome == FetchFailed {
        return Thrown, wanted, ops;
      }
      sched.Interleave(after);
      ghost var fits := |wanted| + CacheOps(ops) + CacheOps(after) <= sched.cache.cap;
      if fits {
        ResidentAfterwards(order, wanted, ops, after, sched.cache.cap);
      }
      r := Copy(buf, iOffset, first, last, fits);
    }

    /** One turn of the copy: the rest of the page at `iOffset + written`, or what still fits. */
    method CopyPage(buf: array<byte>, iOffset: nat, written: nat) returns (n: Option<nat>)
      requires sched.cache.Valid() && Paged() && pageSize > 0
      requires written < buf.Length && iOffset + written < FileSize(pageSize, sched.pageCount)
      requires iOffset + written <= |File()| && buf[..written] == File()[iOffset..iOffset + written]
      modifies sched.cache, buf
      ensures sched.cache.Valid()
      ensures forall k :: k in sched.cache.order <==> k in old(sched.cache.order)
      ensures n == None <==> Key(sched.root, PageOf(iOffset + written, pageSize)) !in sched.cache.order
      ensures n.Some? ==>
        && 0 < n.value && written + n.value <= buf.Length && iOffset + written + n.value <= |File()|
        && buf[..written + n.value] == File()[iOffset..iOffset + written + n.value]
    {
      hide Touch, NoRepeats, Concat, PagesOf, FileSize, PageOf, Within;
      FileLength(sched.cache.content, sched.root, sched.pageCount, pageSize);
      ghost var file := File();
      var abs := iOffset + written;
      var idx, within := PageOf(abs, pageSize), Within(abs, pageSize);
      PageOfByte(iOffset, buf.Length, abs, pageSize, sched.pageCount);
      TouchKeeps(sched.cache.order, Key(sched.root, idx));
      var page := sched.Page(idx);
      if page == None {
        return None;
      }
      var m: nat := Min(buf.Length - written, pageSize - within);
      PageBytes(sched.cache.content, sched.root, sched.pageCount, pageSize, abs, m);
      Put(buf, written, page.value[within..within + m]);
      assert file[iOffset..abs + m] == file[iOffset..abs] + file[abs..abs + m];
      return Some(m);
    }

    /** Copies the slice out of the resident pages. */
    method Copy(buf: array<byte>, iOffset: nat, first: int, last: int, ghost fits: bool) returns (r: Status)
      requires sched.cache.Valid() && Paged() && iOffset < FileSize(pageSize, sched.pageCount) && pageSize > 0
      requires first == PageOf(iOffset, pageSize)
      requires last == PageOf(Min(iOffset + buf.Length, FileSize(pageSize, sched.pageCount)) - 1, pageSize)
      requires fits ==> forall p :: first <= p <= last ==> Key(sched.root, p) in sched.cache.order
      modifies sched.cache, buf
      ensures sched.cache.Valid()
      ensures r == Thrown || r == ReadOk || r == ShortRead
      ensures fits ==> r != Thrown
      ensures r != Thrown ==> buf[..] == Padded(File(), iOffset, buf.Length)
      ensures r != Thrown ==> (r == ReadOk <==> iOffset + buf.Length <= |File()|)
    {
      hide Touch, NoRepeats, Concat, PagesOf, FileSize, PageOf, Within, Padded;
      var size := FileSize(pageSize, sched.pageCount);
      FileLength(sched.cache.content, sched.root, sched.pageCount, pageSize);
      ghost var file := File();
      var written: nat := 0;
      while written < buf.Length && iOffset + written < size
        invariant written <= buf.Length && iOffset + written <= size
        invariant sched.cache.Valid()
        invariant fits ==> forall p :: first <= p <= last ==> Key(sched.root, p) in sched.cache.order
        invariant buf[..written] == file[iOffset..iOffset + written]
      {
        PageOfByte(iOffset, buf.Length, iOffset + written, pageSize, sched.pageCount);
        var n := CopyPage(buf, iOffset, written);
        if n == None {
          return Thrown;
        }
        written := written + n.value;
      }
      PaddedIs(file, iOffset, buf.Length, written);
      if written < buf.Length {
        Fill(buf, written);
        return ShortRead;
      }
      assert buf[..] == buf[..written];
      return ReadOk;
    }
  }

  lemma PastTheEnd(file: Bytes, off: nat, n: nat)
    requires off >= |file|
    ensures Padded(file, off, n) == [] + Zeros(n)
  {
  }

  lemma PaddedIs(file: Bytes, off: nat, n: nat, have: nat)
    requires have <= n && off + have <= |file| && (have == n || off + have == |file|)
    ensures Padded(file, off, n) == file[off..off + have] + Zeros(n - have)
    ensures have == n ==> Padded(file, off, n) == file[off..off + have]
  {
  }

  // ---- Offsets and pages ----

  lemma {:induction false} ConcatEven(parts: seq<Bytes>, n: nat)
    requires forall i :: 0 <= i < |parts| ==> |parts[i]| == n
    ensures |Concat(parts)| == n * |parts|
  {
    if parts != [] {
      ConcatEven(parts[1..], n);
      Distribute(|parts| - 1, 1, n);
    }
  }

  lemma Distribute(a: int, b: int, n: int)
    ensures (a + b) * n == a * n + b * n && n * (a + b) == a * n + b * n && a * n == n * a
  {
  }

  /** `m` bytes of part `i` are the bytes of the whole from `i * n + w`. */
  lemma {:induction false} ConcatSlice(parts: seq<Bytes>, n: nat, i: nat, w: nat, m: nat, at: int)
    requires forall j :: 0 <= j < |parts| ==> |parts[j]| == n
    requires i < |parts| && w + m <= n && at == i * n + w
    ensures 0 <= at && at + m <= |Concat(parts)| && Concat(parts)[at..at + m] == parts[i][w..w + m]
  {
    var rest := Concat(parts[1..]);
    if i > 0 {
      Distribute(i - 1, 1, n);
      ConcatSlice(parts[1..], n, i - 1, w, m, at - n);
      assert (parts[0] + rest)[at..at + m] == rest[at - n..at - n + m];
    }
  }

  lemma FileLength(content: Key -> Bytes, root: string, pageCount: nat, pageSize: nat)
    requires forall i: nat :: i < pageCount ==> |content(Key(root, i))| == pageSize
    ensures |Concat(PagesOf(content, root, pageCount))| == FileSize(pageSize, pageCount)
  {
    ConcatEven(PagesOf(content, root, pageCount), pageSize);
  }

  /** `n` bytes of one page are the same `n` bytes of the file. */
  lemma PageBytes(content: Key -> Bytes, root: string, pageCount: nat, pageSize: nat, abs: nat, n: nat)
    requires forall i: nat :: i < pageCount ==> |content(Key(root, i))| == pageSize
    requires pageSize > 0 && 0 <= PageOf(abs, pageSize) < pageCount && Within(abs, pageSize) + n <= pageSize
    ensures var file := Concat(PagesOf(content, root, pageCount));
      var within := Within(abs, pageSize);
      abs + n <= |file| && content(Key(root, PageOf(abs, pageSize)))[within..within + n] == file[abs..abs + n]
  {
    ConcatSlice(PagesOf(content, root, pageCount), pageSize, PageOf(abs, pageSize), Within(abs, pageSize), n, abs);
  }

  lemma DivBounds(a: int, n: int, m: int)
    requires n > 0 && a < m * n
    ensures a / n < m
  {
    if a / n >= m {
      MulMono(m, a / n, n);
      assert false;
    }
  }

  lemma MulMono(a: int, b: int, n: nat)
    requires a <= b
    ensures a * n <= b * n
  {
    Distribute(a, b - a, n);
  }

  lemma DivMono(a: int, b: int, n: int)
    requires n > 0 && a <= b
    ensures a / n <= b / n
  {
    Distribute(b / n, 1, n);
    DivBounds(a, n, b / n + 1);
  }

  lemma PageOfByte(iOffset: nat, len: nat, abs: nat, pageSize: nat, pageCount: nat)
    requires pageSize > 0 && iOffset <= abs < Min(iOffset + len, FileSize(pageSize, pageCount))
    ensures 0 <= PageOf(abs, pageSize) < pageCount && Within(abs, pageSize) < pageSize
    ensures PageOf(iOffset, pageSize) <= PageOf(abs, pageSize)
         <= PageOf(Min(iOffset + len, FileSize(pageSize, pageCount)) - 1, pageSize)
  {
    Distribute(pageSize, 0, pageCount);
    DivBounds(abs, pageSize, pageCount);
    DivMono(iOffset, abs, pageSize);
    DivMono(abs, Min(iOffset + len, FileSize(pageSize, pageCount)) - 1, pageSize);
  }

  lemma RangeOfPages(iOffset: nat, len: nat, pageSize: nat, pageCount: nat)
    requires iOffset < FileSize(pageSize, pageCount)
    ensures pageSize > 0
    ensures var last := PageOf(Min(iOffset + len, FileSize(pageSize, pageCount)) - 1, pageSize);
      last < pageCount && last - PageOf(iOffset, pageSize) <= PageOf(len, pageSize) + 1
  {
    assert pageSize > 0;
    var m := Min(iOffset + len, FileSize(pageSize, pageCount)) - 1;
    DivBounds(m, pageSize, pageCount);
    DivMono(m, iOffset + len, pageSize);
    DivOfSum(iOffset, len, pageSize);
  }

  lemma DivOfSum(a: nat, b: nat, n: nat)
    requires n > 0
    ensures (a + b) / n <= a / n + b / n + 1
  {
    var q := a / n + b / n + 2;
    assert (a + b) < q * n by {
      Distribute(a / n, b / n + 2, n);
      Distribute(b / n, 2, n);
    }
    DivBounds(a + b, n, q);
  }

  /** The pages of the read are among those asked for. */
  lemma CoversRead(root: string, first: int, last: int, seqRun: nat, pageCount: nat)
    requires last < pageCount
    ensures var w := Window(root, first, HighPage(seqRun, last, pageCount));
      && (forall p :: first <= p <= last ==> Key(root, p) in w)
      && |w| <= Max(0, last + PREFETCH_PAGES - first + 1)
  {
    WindowIs(root, first, HighPage(seqRun, last, pageCount));
  }

  ghost predicate Honest(fetch: Key -> Option<Bytes>, content: Key -> Bytes) {
    forall k :: fetch(k).Some? ==> fetch(k).value == content(k)
  }

  ghost predicate Faithful(ops: seq<Op>, content: Key -> Bytes) {
    forall op :: op in ops && op.Store? ==> op.page == content(op.key)
  }

  /** No other query begins on the same catalog. */
  ghost predicate Quiet(ops: seq<Op>) {
    forall op :: op in ops ==> !op.Began?
  }

  lemma QuietParts(a: seq<Op>, b: seq<Op>)
    ensures Quiet(a + b) <==> Quiet(a) && Quiet(b)
  {
    assert forall op | op in a :: op in a + b;
    assert forall op | op in b :: op in a + b;
  }

  lemma UptoNothing(during: nat -> seq<Op>)
    ensures Upto(during, 0) == []
  {
  }

  lemma PlayNothing(order: seq<Key>, cap: nat)
    ensures Play(order, [], cap) == order && Cancels([]) == 0
  {
  }

  lemma ScanStep(order: seq<Key>, root: string, first: int, i: int, cap: nat)
    requires Shaped(order, cap) && first <= i
    ensures TouchAll(order, Window(root, first, i)) == Touch(TouchAll(order, Window(root, first, i - 1)), Key(root, i))
    ensures Missing(order, Window(root, first, i))
         == Missing(order, Window(root, first, i - 1)) + if Key(root, i) in order then [] else [Key(root, i)]
    ensures Key(root, i) in TouchAll(order, Window(root, first, i - 1)) <==> Key(root, i) in order
  {
    hide Touch, NoRepeats;
    var w := Window(root, first, i - 1);
    assert Window(root, first, i) == w + [Key(root, i)] && (w + [Key(root, i)])[..|w|] == w;
    TouchAllKeeps(order, w, cap);
  }
}
