/** The web catalog's page scheduler: read-ahead, cancellation, and what is resident after `Ensure`. */
module Catalog {
  import opened Basics
  import opened Sequences
  import opened PageLru

  const PREFETCH_PAGES: nat := 15
  const PREFETCH_MIN_RUN: nat := 4

  datatype Outcome = Resident | Cancelled | FetchFailed

  /** What other queries over the same cache may do while a batch is in flight. */
  datatype Op =
    | Hit(key: Key)
    | Store(key: Key, page: Bytes)
    | Began(first: int, last: int)
    | Cancel

  // ---- The order of the cache, as a function of what is done to it ----

  function TouchAll(order: seq<Key>, ks: seq<Key>): seq<Key> {
    if ks == [] then order else Touch(TouchAll(order, ks[..|ks| - 1]), ks[|ks| - 1])
  }

  function AdmitAll(order: seq<Key>, ks: seq<Key>, cap: nat): seq<Key> {
    if ks == [] then order else Admit(AdmitAll(order, ks[..|ks| - 1], cap), ks[|ks| - 1], cap)
  }

  function Play1(order: seq<Key>, op: Op, cap: nat): seq<Key> {
    match op
    case Hit(k) => Touch(order, k)
    case Store(k, _) => Admit(order, k, cap)
    case _ => order
  }

  function Play(order: seq<Key>, ops: seq<Op>, cap: nat): seq<Key> {
    if ops == [] then order else Play1(Play(order, ops[..|ops| - 1], cap), ops[|ops| - 1], cap)
  }

  function Window(root: string, first: int, hi: int): seq<Key>
    decreases hi - first
  {
    if hi < first then [] else Window(root, first, hi - 1) + [Key(root, hi)]
  }

  function Missing(order: seq<Key>, ks: seq<Key>): seq<Key> {
    if ks == [] then []
    else Missing(order, ks[..|ks| - 1]) + if ks[|ks| - 1] in order then [] else [ks[|ks| - 1]]
  }

  /** What the other queries do before the first `n` tasks start: `during(j)` just before task `j`. */
  function Upto(during: nat -> seq<Op>, n: nat): seq<Op> {
    if n == 0 then [] else Upto(during, n - 1) + during(n - 1)
  }

  function Cancels(ops: seq<Op>): nat {
    if ops == [] then 0 else Cancels(ops[..|ops| - 1]) + if ops[|ops| - 1].Cancel? then 1 else 0
  }

  /** How many of the operations reach the cache. */
  function CacheOps(ops: seq<Op>): nat {
    if ops == [] then 0
    else CacheOps(ops[..|ops| - 1]) + if ops[|ops| - 1].Hit? || ops[|ops| - 1].Store? then 1 else 0
  }

  function HighPage(seqRun: nat, last: int, pageCount: nat): int {
    if seqRun >= PREFETCH_MIN_RUN then Min(last + PREFETCH_PAGES, pageCount - 1) else last
  }

  function RunAfter(seqRun: nat, lastEnd: Option<int>, first: int): nat {
    if lastEnd.Some? && (first == lastEnd.value || first == lastEnd.value + 1) then seqRun + 1 else 0
  }

  /** The cache's order after one call that asks for `ks`, with `ops` done by others meanwhile. */
  function EnsureOrder(order: seq<Key>, ks: seq<Key>, ops: seq<Op>, cap: nat, outcome: Outcome): seq<Key> {
    var scanned := TouchAll(order, ks);
    if Missing(order, ks) == [] then scanned
    else if outcome != Resident then Play(scanned, ops, cap)
    else AdmitAll(Play(scanned, ops, cap), Missing(order, ks), cap)
  }

  // ---- Every step keeps the cache's shape ----

  ghost predicate Shaped(order: seq<Key>, cap: nat) {
    NoRepeats(order) && |order| <= cap && cap > 0
  }

  lemma {:induction false} TouchAllKeeps(order: seq<Key>, ks: seq<Key>, cap: nat)
    requires Shaped(order, cap)
    ensures Shaped(TouchAll(order, ks), cap)
    ensures forall x :: x in TouchAll(order, ks) <==> x in order
  {
    if ks != [] {
      TouchAllKeeps(order, ks[..|ks| - 1], cap);
      TouchKeeps(TouchAll(order, ks[..|ks| - 1]), ks[|ks| - 1]);
    }
  }

  lemma Play1Keeps(order: seq<Key>, op: Op, cap: nat)
    requires Shaped(order, cap)
    ensures Shaped(Play1(order, op, cap), cap)
  {
    match op
    case Hit(k) => TouchKeeps(order, k);
    case Store(k, _) => AdmitKeeps(order, k, cap);
    case _ =>
  }

  lemma {:induction false} PlayKeeps(order: seq<Key>, ops: seq<Op>, cap: nat)
    requires Shaped(order, cap)
    ensures Shaped(Play(order, ops, cap), cap)
  {
    if ops != [] {
      PlayKeeps(order, ops[..|ops| - 1], cap);
      Play1Keeps(Play(order, ops[..|ops| - 1], cap), ops[|ops| - 1], cap);
    }
  }

  lemma {:induction false} AdmitAllKeeps(order: seq<Key>, ks: seq<Key>, cap: nat)
    requires Shaped(order, cap)
    ensures Shaped(AdmitAll(order, ks, cap), cap)
    ensures forall x :: x in AdmitAll(order, ks, cap) ==> x in order || x in ks
  {
    if ks != [] {
      AdmitAllKeeps(order, ks[..|ks| - 1], cap);
      AdmitKeeps(AdmitAll(order, ks[..|ks| - 1], cap), ks[|ks| - 1], cap);
      assert ks == ks[..|ks| - 1] + [ks[|ks| - 1]];
    }
  }

  // ---- No page is missing after `Ensure` ----

  lemma {:induction false} MissingIs(order: seq<Key>, ks: seq<Key>)
    ensures forall k :: k in Missing(order, ks) <==> k in ks && k !in order
    ensures |Missing(order, ks)| <= |ks|
  {
    if ks != [] {
      MissingIs(order, ks[..|ks| - 1]);
      assert ks == ks[..|ks| - 1] + [ks[|ks| - 1]];
    }
  }

  /** After the scan a resident page of the window has only other hits of the window behind it. */
  lemma {:induction false} ScanNear(order: seq<Key>, ks: seq<Key>, k: Key, cap: nat)
    requires Shaped(order, cap) && k in ks
    ensures |Missing(order, ks)| <= |ks|
    ensures Near(TouchAll(order, ks), k, |ks| - |Missing(order, ks)|)
    decreases |ks|
  {
    hide NoRepeats, Near, Behind, Touch;
    var init, l := ks[..|ks| - 1], ks[|ks| - 1];
    assert ks == init + [l];
    var o := TouchAll(order, init);
    MissingIs(order, init);
    TouchAllKeeps(order, init, cap);
    if k in init {
      ScanNear(order, init, k, cap);
      TouchNear(o, k, |init| - |Missing(order, init)|, l);
    } else {
      JustTouched(o, l);
      if l in order {
        NearGrows(Touch(o, l), l, 1, |ks| - |Missing(order, ks)|);
      }
    }
  }

  lemma JustTouched(order: seq<Key>, k: Key)
    ensures k in order ==> Near(Touch(order, k), k, 1)
    ensures k !in order ==> forall d: nat :: Near(Touch(order, k), k, d)
  {
    if k in order {
      assert Touch(order, k)[|Touch(order, k)| - 1] == k;
    }
  }

  lemma {:induction false} PlayNear(order: seq<Key>, ops: seq<Op>, k: Key, d: nat, cap: nat)
    requires Shaped(order, cap) && Near(order, k, d) && d + CacheOps(ops) <= cap
    ensures Near(Play(order, ops, cap), k, d + CacheOps(ops))
    ensures k in order ==> k in Play(order, ops, cap)
    decreases |ops|
  {
    hide NoRepeats, Behind, Near, Touch, Admit;
    if ops != [] {
      var init, op := ops[..|ops| - 1], ops[|ops| - 1];
      var o, e := Play(order, init, cap), d + CacheOps(init);
      PlayNear(order, init, k, d, cap);
      PlayKeeps(order, init, cap);
      match op
      case Hit(x) =>
        TouchNear(o, k, e, x);
        NearGrows(Touch(o, x), k, e + if x in o then 1 else 0, e + 1);
      case Store(x, _) =>
        AdmitNear(o, k, e, x, cap);
      case _ =>
    }
  }

  lemma NearGrows(order: seq<Key>, k: Key, d: nat, e: nat)
    requires Near(order, k, d) && d <= e
    ensures Near(order, k, e)
  {
  }

  lemma {:induction false} AdmitAllNear(order: seq<Key>, ks: seq<Key>, k: Key, d: nat, cap: nat)
    requires Shaped(order, cap) && Near(order, k, d) && d + |ks| <= cap
    ensures Near(AdmitAll(order, ks, cap), k, d + |ks|)
    ensures k in order || k in ks ==> k in AdmitAll(order, ks, cap)
    decreases |ks|
  {
    hide NoRepeats, Behind, Near, Admit;
    if ks != [] {
      var init, l := ks[..|ks| - 1], ks[|ks| - 1];
      assert ks == init + [l];
      AdmitAllNear(order, init, k, d, cap);
      AdmitAllKeeps(order, init, cap);
      AdmitNear(AdmitAll(order, init, cap), k, d + |init|, l, cap);
    }
  }

  /** A window that fits the cache, together with what others touch meanwhile, is resident afterwards. */
  lemma EnsureMissesNothing(order: seq<Key>, ks: seq<Key>, ops: seq<Op>, cap: nat, k: Key)
    requires Shaped(order, cap) && |ks| + CacheOps(ops) <= cap && k in ks
    ensures k in EnsureOrder(order, ks, ops, cap, Resident)
    ensures Near(EnsureOrder(order, ks, ops, cap, Resident), k, |ks| + CacheOps(ops))
  {
    hide NoRepeats, Behind, Near, Admit, Touch;
    MissingIs(order, ks);
    ScanNear(order, ks, k, cap);
    TouchAllKeeps(order, ks, cap);
    var o, d := TouchAll(order, ks), |ks| - |Missing(order, ks)|;
    PlayNear(o, ops, k, d, cap);
    PlayKeeps(o, ops, cap);
    AdmitAllNear(Play(o, ops, cap), Missing(order, ks), k, d + CacheOps(ops), cap);
    if Missing(order, ks) == [] {
      NearGrows(o, k, d, |ks| + CacheOps(ops));
    }
  }

  lemma EnsureKeeps(order: seq<Key>, ks: seq<Key>, ops: seq<Op>, cap: nat, outcome: Outcome)
    requires Shaped(order, cap)
    ensures Shaped(EnsureOrder(order, ks, ops, cap, outcome), cap)
  {
    hide NoRepeats, Admit, Touch;
    TouchAllKeeps(order, ks, cap);
    PlayKeeps(TouchAll(order, ks), ops, cap);
    AdmitAllKeeps(Play(TouchAll(order, ks), ops, cap), Missing(order, ks), cap);
  }

  /** The pages stay resident while others go on, as long as everything fits. */
  lemma ResidentAfterwards(order: seq<Key>, ks: seq<Key>, ops: seq<Op>, later: seq<Op>, cap: nat)
    requires Shaped(order, cap) && |ks| + CacheOps(ops) + CacheOps(later) <= cap
    ensures forall k :: k in ks ==> k in Play(EnsureOrder(order, ks, ops, cap, Resident), later, cap)
  {
    hide NoRepeats, Behind, Near, Admit, Touch;
    EnsureKeeps(order, ks, ops, cap, Resident);
    forall k | k in ks ensures k in Play(EnsureOrder(order, ks, ops, cap, Resident), later, cap) {
      EnsureMissesNothing(order, ks, ops, cap, k);
      PlayNear(EnsureOrder(order, ks, ops, cap, Resident), later, k, |ks| + CacheOps(ops), cap);
    }
  }

  lemma {:induction false} PlayAppend(order: seq<Key>, a: seq<Op>, b: seq<Op>, cap: nat)
    ensures Play(order, a + b, cap) == Play(Play(order, a, cap), b, cap)
    ensures Cancels(a + b) == Cancels(a) + Cancels(b)
    ensures CacheOps(a + b) == CacheOps(a) + CacheOps(b)
    decreases |b|
  {
    if b == [] {
      assert a + b == a;
    } else {
      assert (a + b)[..|a + b| - 1] == a + b[..|b| - 1];
      PlayAppend(order, a, b[..|b| - 1], cap);
    }
  }

  lemma {:induction false} WindowIs(root: string, first: int, hi: int)
    ensures forall p: int :: Key(root, p) in Window(root, first, hi) <==> first <= p <= hi
    ensures forall k :: k in Window(root, first, hi) ==> k.root == root
    ensures |Window(root, first, hi)| == Max(0, hi - first + 1)
    ensures NoRepeats(Window(root, first, hi))
    decreases hi - first
  {
    if first <= hi {
      WindowIs(root, first, hi - 1);
      var w := Window(root, first, hi - 1);
      assert forall j | 0 <= j < |w| :: w[j] in w;
    }
  }

  /** When nobody else runs, the condition is exact: all of the window is resident iff it fits. */
  lemma ResidentIffWindowFits(order: seq<Key>, ks: seq<Key>, cap: nat)
    requires Shaped(order, cap) && NoRepeats(ks)
    ensures (forall k :: k in ks ==> k in EnsureOrder(order, ks, [], cap, Resident)) <==> |ks| <= cap
  {
    hide NoRepeats, Behind, Near, Admit, Touch;
    var after := EnsureOrder(order, ks, [], cap, Resident);
    TouchAllKeeps(order, ks, cap);
    AdmitAllKeeps(TouchAll(order, ks), Missing(order, ks), cap);
    if |ks| <= cap {
      forall k | k in ks ensures k in after {
        EnsureMissesNothing(order, ks, [], cap, k);
      }
    } else if forall k :: k in ks ==> k in after {
      Pigeonhole(ks, after);
      assert false;
    }
  }
}
