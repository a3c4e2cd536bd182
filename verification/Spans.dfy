/** Zero spans: clamping, sorting and coalescing them into disjoint ascending ranges. */
module Spans {
  import opened Basics
  import opened Sorting

  datatype Span = Span(lo: int, hi: int)

  ghost predicate Covered(spans: seq<Span>, i: int) {
    exists k :: 0 <= k < |spans| && spans[k].lo <= i < spans[k].hi
  }

  /** Non-empty ranges inside [0, len], ascending, with at least one byte between neighbours. */
  ghost predicate Separated(spans: seq<Span>, len: int) {
    && (forall k :: 0 <= k < |spans| ==> 0 <= spans[k].lo < spans[k].hi <= len)
    && (forall j, k :: 0 <= j < k < |spans| ==> spans[j].hi < spans[k].lo)
  }

  function Clamp(x: int, len: nat): (c: int)
    ensures 0 <= c <= len
  {
    Max(0, Min(x, len))
  }

  /** The clamped spans that are not empty. */
  function Normalize(spans: seq<Span>, len: nat): (r: seq<Span>)
    ensures forall k :: 0 <= k < |r| ==> 0 <= r[k].lo < r[k].hi <= len
  {
    if spans == [] then []
    else
      var s := Span(Clamp(spans[0].lo, len), Clamp(spans[0].hi, len));
      (if s.lo < s.hi then [s] else []) + Normalize(spans[1..], len)
  }

  lemma CoveredCons(s: Span, spans: seq<Span>, i: int)
    ensures Covered([s] + spans, i) <==> s.lo <= i < s.hi || Covered(spans, i)
  {
    if Covered(spans, i) {
      var k :| 0 <= k < |spans| && spans[k].lo <= i < spans[k].hi;
      assert ([s] + spans)[k + 1] == spans[k];
    }
    assert ([s] + spans)[0] == s;
  }

  lemma {:induction false} NormalizeCovers(spans: seq<Span>, len: nat, i: int)
    requires 0 <= i < len
    ensures Covered(Normalize(spans, len), i) <==> Covered(spans, i)
  {
    if spans != [] {
      var s := Span(Clamp(spans[0].lo, len), Clamp(spans[0].hi, len));
      NormalizeCovers(spans[1..], len, i);
      assert spans == [spans[0]] + spans[1..];
      CoveredCons(spans[0], spans[1..], i);
      CoveredCons(s, Normalize(spans[1..], len), i);
      assert s.lo <= i < s.hi <==> spans[0].lo <= i < spans[0].hi;
      assert [] + Normalize(spans[1..], len) == Normalize(spans[1..], len);
    }
  }

  lemma SortCovers(spans: seq<Span>, key: Span -> int, i: int)
    ensures Covered(SortBy(spans, key), i) <==> Covered(spans, i)
  {
    SortByKeepsMembers(spans, key);
    var t := SortBy(spans, key);
    if Covered(spans, i) {
      var k :| 0 <= k < |spans| && spans[k].lo <= i < spans[k].hi;
      assert spans[k] in t;
    }
    if Covered(t, i) {
      var k :| 0 <= k < |t| && t[k].lo <= i < t[k].hi;
      assert t[k] in spans;
    }
  }

  /** One step of the coalescing loop: widen the last range or start a new one. */
  function Absorb(out: seq<Span>, s: Span): seq<Span> {
    if out != [] && s.lo <= out[|out| - 1].hi then
      out[|out| - 1 := Span(out[|out| - 1].lo, Max(out[|out| - 1].hi, s.hi))]
    else out + [s]
  }

  lemma AbsorbKeepsSeparated(out: seq<Span>, s: Span, len: nat)
    requires Separated(out, len) && 0 <= s.lo < s.hi <= len
    requires out != [] ==> out[|out| - 1].lo <= s.lo
    ensures Separated(Absorb(out, s), len)
  {
  }

  lemma AbsorbCovers(out: seq<Span>, s: Span, i: int)
    requires out != [] ==> out[|out| - 1].lo <= s.lo
    ensures Covered(Absorb(out, s), i) <==> Covered(out, i) || s.lo <= i < s.hi
  {
    if out != [] && s.lo <= out[|out| - 1].hi {
      CoveredWiden(out, s, i);
    } else {
      CoveredSnoc(out, s, i);
    }
  }

  lemma CoveredPrefix(spans: seq<Span>, n: nat, i: int)
    requires n < |spans|
    ensures Covered(spans[..n + 1], i) <==> Covered(spans[..n], i) || spans[n].lo <= i < spans[n].hi
  {
    assert spans[..n + 1] == spans[..n] + [spans[n]];
    CoveredSnoc(spans[..n], spans[n], i);
  }

  /** The union of the input inside [0, len), in the one form that has no two touching ranges. */
  method MergeSpans(spans: seq<Span>, len: nat) returns (out: seq<Span>)
    ensures Separated(out, len)
    ensures forall i :: 0 <= i < len ==> (Covered(out, i) <==> Covered(spans, i))
  {
    var norm := SortedSpans(spans, len);
    out := [];
    for n := 0 to |norm|
      invariant Separated(out, len)
      invariant n == 0 ==> out == []
      invariant n > 0 ==> out != [] && out[|out| - 1].lo <= norm[n - 1].lo
      invariant forall i :: Covered(out, i) <==> Covered(norm[..n], i)
    {
      var s := norm[n];
      AbsorbKeepsSeparated(out, s, len);
      forall i
        ensures Covered(Absorb(out, s), i) <==> Covered(norm[..n + 1], i)
      {
        AbsorbCovers(out, s, i);
        CoveredPrefix(norm, n, i);
      }
      if out != [] && s.lo <= out[|out| - 1].hi {
        var last := out[|out| - 1];
        out := out[|out| - 1 := Span(last.lo, Max(last.hi, s.hi))];
      } else {
        out := out + [s];
      }
    }
    assert norm[..|norm|] == norm;
  }

  lemma CoveredSnoc(spans: seq<Span>, s: Span, i: int)
    ensures Covered(spans + [s], i) <==> Covered(spans, i) || s.lo <= i < s.hi
  {
    var t := spans + [s];
    assert t[|spans|] == s;
    if Covered(spans, i) {
      var k :| 0 <= k < |spans| && spans[k].lo <= i < spans[k].hi;
      assert t[k] == spans[k];
    }
  }

  lemma CoveredWiden(spans: seq<Span>, s: Span, i: int)
    requires spans != [] && spans[|spans| - 1].lo <= s.lo <= spans[|spans| - 1].hi
    ensures var last := spans[|spans| - 1];
      Covered(spans[|spans| - 1 := Span(last.lo, Max(last.hi, s.hi))], i) <==>
      Covered(spans, i) || s.lo <= i < s.hi
  {
    var n := |spans| - 1;
    var last := spans[n];
    var wide := Span(last.lo, Max(last.hi, s.hi));
    assert spans == spans[..n] + [last] && spans[n := wide] == spans[..n] + [wide];
    CoveredSnoc(spans[..n], last, i);
    CoveredSnoc(spans[..n], wide, i);
  }

  method SortedSpans(spans: seq<Span>, len: nat) returns (norm: seq<Span>)
    ensures SortedBy(norm, (s: Span) => s.lo)
    ensures forall k :: 0 <= k < |norm| ==> 0 <= norm[k].lo < norm[k].hi <= len
    ensures forall i :: 0 <= i < len ==> (Covered(norm, i) <==> Covered(spans, i))
  {
    var n, key := Normalize(spans, len), (s: Span) => s.lo;
    norm := SortBy(n, key);
    SortByIsASort(n, key);
    SortByKeepsMembers(n, key);
    forall k | 0 <= k < |norm|
      ensures 0 <= norm[k].lo < norm[k].hi <= len
    {
      assert norm[k] in n;
    }
    forall i | 0 <= i < len
      ensures Covered(norm, i) <==> Covered(spans, i)
    {
      NormalizeCovers(spans, len, i);
      SortCovers(n, key, i);
    }
  }

  /** The merged form is determined by the bytes it covers. */
  lemma {:induction false} SeparatedIsCanonical(a: seq<Span>, b: seq<Span>, len: nat)
    requires Separated(a, len) && Separated(b, len)
    requires forall i :: 0 <= i < len ==> (Covered(a, i) <==> Covered(b, i))
    ensures a == b
    decreases |a|
  {
    if a == [] {
      if b != [] {
        assert Covered(b, b[0].lo);
      }
    } else {
      assert a[0].lo <= a[0].lo < a[0].hi;
      assert Covered(a, a[0].lo) && Covered(b, a[0].lo);
      FirstSpansAgree(a, b, len);
      forall i | 0 <= i < len
        ensures Covered(a[1..], i) <==> Covered(b[1..], i)
      {
        CoveredCons(a[0], a[1..], i);
        CoveredCons(b[0], b[1..], i);
        assert a == [a[0]] + a[1..] && b == [b[0]] + b[1..];
        if Covered(a[1..], i) {
          TailStartsLater(a, len, i);
        }
        if Covered(b[1..], i) {
          TailStartsLater(b, len, i);
        }
      }
      SeparatedIsCanonical(a[1..], b[1..], len);
    }
  }

  lemma TailStartsLater(a: seq<Span>, len: nat, i: int)
    requires a != [] && Separated(a, len) && Covered(a[1..], i)
    ensures i > a[0].hi
  {
    var k :| 0 <= k < |a[1..]| && a[1..][k].lo <= i < a[1..][k].hi;
    assert a[1..][k] == a[k + 1];
  }

  lemma FirstSpansAgree(a: seq<Span>, b: seq<Span>, len: nat)
    requires a != [] && b != [] && Separated(a, len) && Separated(b, len)
    requires forall i :: 0 <= i < len ==> (Covered(a, i) <==> Covered(b, i))
    ensures a[0] == b[0]
  {
    FirstStartsNoEarlier(a, b, len);
    FirstStartsNoEarlier(b, a, len);
    FirstEndsNoEarlier(a, b, len);
    FirstEndsNoEarlier(b, a, len);
  }

  lemma FirstStartsNoEarlier(a: seq<Span>, b: seq<Span>, len: nat)
    requires a != [] && b != [] && Separated(a, len) && Separated(b, len)
    requires forall i :: 0 <= i < len ==> (Covered(a, i) <==> Covered(b, i))
    ensures b[0].lo <= a[0].lo
  {
    assert a[0].lo <= a[0].lo < a[0].hi;
    assert Covered(a, a[0].lo) && Covered(b, a[0].lo);
    var k :| 0 <= k < |b| && b[k].lo <= a[0].lo < b[k].hi;
  }

  lemma FirstEndsNoEarlier(a: seq<Span>, b: seq<Span>, len: nat)
    requires a != [] && b != [] && Separated(a, len) && Separated(b, len) && a[0].lo == b[0].lo
    requires forall i :: 0 <= i < len ==> (Covered(a, i) <==> Covered(b, i))
    ensures a[0].hi >= b[0].hi
  {
    assert !Covered(a, a[0].hi);
    assert a[0].hi < len ==> !Covered(b, a[0].hi);
    assert !(b[0].lo <= a[0].hi < b[0].hi);
  }

  // ---- How much spans cover ----

  /** How many of the first `n` bytes are covered. */
  ghost function CoveredCount(spans: seq<Span>, n: nat): (c: nat)
    ensures c <= n
  {
    if n == 0 then 0 else CoveredCount(spans, n - 1) + if Covered(spans, n - 1) then 1 else 0
  }

  function SpanTotal(spans: seq<Span>): int {
    if spans == [] then 0 else SpanTotal(spans[..|spans| - 1]) + (spans[|spans| - 1].hi - spans[|spans| - 1].lo)
  }

  lemma {:induction false} SpanTotalFirst(spans: seq<Span>)
    requires spans != []
    ensures SpanTotal(spans) == spans[0].hi - spans[0].lo + SpanTotal(spans[1..])
    decreases |spans|
  {
    if |spans| > 1 {
      SpanTotalFirst(spans[..|spans| - 1]);
      assert spans[..|spans| - 1][1..] == spans[1..][..|spans| - 2];
    }
  }

  lemma {:induction false} SameCoverSameCount(a: seq<Span>, b: seq<Span>, n: nat)
    requires forall i :: 0 <= i < n ==> (Covered(a, i) <==> Covered(b, i))
    ensures CoveredCount(a, n) == CoveredCount(b, n)
    decreases n
  {
    if n > 0 {
      SameCoverSameCount(a, b, n - 1);
    }
  }

  lemma {:induction false} CountOver(spans: seq<Span>, lo: nat, hi: nat, covered: bool)
    requires lo <= hi && forall i :: lo <= i < hi ==> (Covered(spans, i) <==> covered)
    ensures CoveredCount(spans, hi) == CoveredCount(spans, lo) + if covered then hi - lo else 0
    decreases hi - lo
  {
    if lo < hi {
      CountOver(spans, lo, hi - 1, covered);
    }
  }

  /** Separated spans cover as many bytes as their lengths add up to. */
  lemma {:induction false} SeparatedCount(spans: seq<Span>, len: nat)
    requires Separated(spans, len)
    ensures CoveredCount(spans, len) == SpanTotal(spans)
    decreases |spans|
  {
    if spans == [] {
      CountOver(spans, 0, len, false);
    } else {
      var init, s := spans[..|spans| - 1], spans[|spans| - 1];
      assert spans == init + [s];
      forall i | 0 <= i < len
        ensures Covered(spans, i) <==> Covered(init, i) || s.lo <= i < s.hi
      {
        CoveredSnoc(init, s, i);
      }
      assert Separated(init, s.lo) && forall i :: s.lo <= i ==> !Covered(init, i);
      SeparatedCount(init, s.lo);
      SameCoverSameCount(spans, init, s.lo);
      CountOver(spans, s.lo, s.hi, true);
      CountOver(spans, s.hi, len, false);
    }
  }
}
