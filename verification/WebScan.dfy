/**
 * What a forward scan costs on the web. The scheduler asks for the read-ahead window on every read, also
 * when the page itself is already there, so a scan waits for one batch a page until the window meets the
 * end of the file.
 */
module WebScan {
  import opened Basics
  import opened Sequences
  import opened PageLru
  import opened Catalog

  /** The shared cache's order and one scheduler's counters. */
  datatype Reader = Reader(order: seq<Key>, seqRun: nat, lastEnd: Option<int>, waves: nat)

  function AskedAt(s: Reader, root: string, p: nat, pageCount: nat): seq<Key> {
    Window(root, p, HighPage(RunAfter(s.seqRun, s.lastEnd, p), p, pageCount))
  }

  /** A read of one page: `ensure(p, p)` with nobody else running, and the page taken. */
  function ReadPage(s: Reader, root: string, p: nat, pageCount: nat, cap: nat): Reader {
    var ks := AskedAt(s, root, p, pageCount);
    Reader(Touch(EnsureOrder(s.order, ks, [], cap, Resident), Key(root, p)), RunAfter(s.seqRun, s.lastEnd, p), Some(p),
           s.waves + if Missing(s.order, ks) == [] then 0 else 1)
  }

  function ReadPages(s: Reader, root: string, first: nat, n: nat, pageCount: nat, cap: nat): Reader {
    if n == 0 then s else ReadPage(ReadPages(s, root, first, n - 1, pageCount, cap), root, first + n - 1, pageCount, cap)
  }

  /** How far the file is resident after `n` reads of a scan from `first`. */
  function Fetched(first: nat, n: nat, pageCount: nat): nat {
    if n <= PREFETCH_MIN_RUN then first + n else Min(first + n + PREFETCH_PAGES, pageCount)
  }

  /** The batches of those reads. */
  function ScanCost(first: nat, n: nat, pageCount: nat): int {
    Min(n, Max(PREFETCH_MIN_RUN + 1, pageCount - first - PREFETCH_PAGES))
  }

  /** From page `next` on exactly the pages below `upto` are resident. */
  ghost predicate ResidentFrom(order: seq<Key>, root: string, next: nat, upto: nat) {
    forall p: nat :: next <= p ==> (Key(root, p) in order <==> p < upto)
  }

  ghost predicate ScannedTo(s0: Reader, s: Reader, root: string, first: nat, n: nat, pageCount: nat, cap: nat) {
    && Shaped(s.order, cap) && RunAfter(s.seqRun, s.lastEnd, first + n) == n
    && ResidentFrom(s.order, root, first + n, Fetched(first, n, pageCount))
    && s.waves == s0.waves + ScanCost(first, n, pageCount)
  }

  /** A batch makes its window resident and nothing past it. */
  lemma WindowResident(order: seq<Key>, root: string, p: nat, upto: nat, hi: nat, cap: nat)
    requires Shaped(order, cap) && p <= hi < p + cap && upto <= hi + 1 && ResidentFrom(order, root, p, upto)
    ensures var ks := Window(root, p, hi); var after := Touch(EnsureOrder(order, ks, [], cap, Resident), Key(root, p));
      Shaped(after, cap) && ResidentFrom(after, root, p + 1, hi + 1)
    ensures Missing(order, Window(root, p, hi)) == [] <==> upto == hi + 1
  {
    hide Shaped, Touch, Missing, EnsureOrder, Window;
    var ks := Window(root, p, hi);
    WindowIs(root, p, hi);
    MissingIs(order, ks);
    MissingNone(order, root, p, upto, hi);
    EnsureKeeps(order, ks, [], cap, Resident);
    var mid := EnsureOrder(order, ks, [], cap, Resident);
    ShapedIs(mid, cap);
    TouchKeeps(mid, Key(root, p));
    ShapedIs(Touch(mid, Key(root, p)), cap);
    forall x: nat | p + 1 <= x
      ensures Key(root, x) in mid <==> x < hi + 1
    {
      if x <= hi {
        EnsureMissesNothing(order, ks, [], cap, Key(root, x));
      } else {
        EnsureAddsOnly(order, ks, cap, Key(root, x));
      }
    }
  }

  lemma ShapedIs(order: seq<Key>, cap: nat)
    ensures Shaped(order, cap) <==> NoRepeats(order) && |order| <= cap && cap > 0
  {
  }

  lemma MissingNone(order: seq<Key>, root: string, p: nat, upto: nat, hi: nat)
    requires p <= hi && upto <= hi + 1 && ResidentFrom(order, root, p, upto)
    ensures Missing(order, Window(root, p, hi)) == [] <==> upto == hi + 1
  {
    hide Missing, Window;
    var ks := Window(root, p, hi);
    WindowIs(root, p, hi);
    MissingIs(order, ks);
    if upto <= hi {
      assert Key(root, hi) in Missing(order, ks);
    } else {
      forall k | k in ks
        ensures k in order
      {
        WindowMember(root, p, hi, k);
      }
      HeadIsMember(Missing(order, ks));
    }
  }

  lemma HeadIsMember(ks: seq<Key>)
    ensures ks == [] || ks[0] in ks
  {
  }

  lemma {:induction false} WindowMember(root: string, first: int, hi: int, k: Key)
    requires k in Window(root, first, hi)
    ensures k.root == root && first <= k.page <= hi
    decreases hi - first
  {
    if k != Key(root, hi) {
      WindowMember(root, first, hi - 1, k);
    }
  }

  lemma EnsureAddsOnly(order: seq<Key>, ks: seq<Key>, cap: nat, k: Key)
    requires Shaped(order, cap) && k !in order && k !in ks
    ensures k !in EnsureOrder(order, ks, [], cap, Resident)
  {
    hide Shaped;
    TouchAllKeeps(order, ks, cap);
    MissingIs(order, ks);
    AdmitAllKeeps(TouchAll(order, ks), Missing(order, ks), cap);
  }

  lemma ScanOne(s0: Reader, s: Reader, root: string, first: nat, n: nat, pageCount: nat, cap: nat)
    requires cap > PREFETCH_PAGES && first + n < pageCount && ScannedTo(s0, s, root, first, n, pageCount, cap)
    ensures ScannedTo(s0, ReadPage(s, root, first + n, pageCount, cap), root, first, n + 1, pageCount, cap)
  {
    hide Shaped, Touch, Missing, EnsureOrder, Window;
    var p := first + n;
    var hi: nat := HighPage(n, p, pageCount);
    assert hi + 1 == Fetched(first, n + 1, pageCount);
    WindowResident(s.order, root, p, Fetched(first, n, pageCount), hi, cap);
  }

  /**
   * A forward scan of `n` single pages from cold waits for min(n, max(5, pages left - 15)) batches,
   * whatever else the cache holds: every page costs one until the window meets the end of the file.
   */
  lemma {:induction false} WebScanWaves(s: Reader, root: string, first: nat, n: nat, pageCount: nat, cap: nat)
    requires Shaped(s.order, cap) && cap > PREFETCH_PAGES && first + n <= pageCount
    requires RunAfter(s.seqRun, s.lastEnd, first) == 0
    requires forall p: nat :: first <= p ==> Key(root, p) !in s.order
    ensures ScannedTo(s, ReadPages(s, root, first, n, pageCount, cap), root, first, n, pageCount, cap)
    ensures ReadPages(s, root, first, n, pageCount, cap).waves ==
      s.waves + if n <= 5 || n <= pageCount - first - 15 then n else if pageCount - first <= 20 then 5 else pageCount - first - 15
    decreases n
  {
    hide Shaped, ReadPage;
    if n > 0 {
      WebScanWaves(s, root, first, n - 1, pageCount, cap);
      ScanOne(s, ReadPages(s, root, first, n - 1, pageCount, cap), root, first, n - 1, pageCount, cap);
    }
  }

  // ---- The forward-run counter ----

  /** The first and last page of a read. */
  datatype Range = Range(first: int, last: int)

  function CounterAfter(asked: seq<Range>): (nat, Option<int>) {
    if asked == [] then (0, None)
    else
      var (run, end) := CounterAfter(asked[..|asked| - 1]);
      (RunAfter(run, end, asked[|asked| - 1].first), Some(asked[|asked| - 1].last))
  }

  /** Read `i` goes on from the one before it: on its last page, or on the next. */
  predicate GoesOn(asked: seq<Range>, i: nat)
    requires i < |asked|
  {
    i > 0 && (asked[i].first == asked[i - 1].last || asked[i].first == asked[i - 1].last + 1)
  }

  /** The counter is the length of the forward run the last read ends. */
  lemma {:induction false} CounterIsRun(asked: seq<Range>)
    ensures var n := CounterAfter(asked).0;
      && (asked == [] ==> n == 0) && (asked != [] ==> n < |asked| && !GoesOn(asked, |asked| - 1 - n))
      && forall i: nat :: |asked| - n <= i < |asked| ==> GoesOn(asked, i)
    ensures CounterAfter(asked).1 == if asked == [] then None else Some(asked[|asked| - 1].last)
    decreases |asked|
  {
    if asked != [] {
      var init := asked[..|asked| - 1];
      CounterIsRun(init);
      assert forall i: nat | i < |init| :: GoesOn(init, i) <==> GoesOn(asked, i);
    }
  }
}
