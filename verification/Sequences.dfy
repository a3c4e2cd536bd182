/** Sequences without repetition, and the sizes of sets and maps. */
module Sequences {
  ghost predicate NoRepeats<T>(s: seq<T>) {
    forall j, k :: 0 <= j < k < |s| ==> s[j] != s[k]
  }

  /** The sequence without `x`. */
  function Without<T(==)>(s: seq<T>, x: T): seq<T> {
    if s == [] then []
    else Without(s[..|s| - 1], x) + if s[|s| - 1] == x then [] else [s[|s| - 1]]
  }

  lemma {:induction false} WithoutIs<T>(s: seq<T>, x: T)
    requires NoRepeats(s)
    ensures NoRepeats(Without(s, x))
    ensures forall y :: y in Without(s, x) <==> y in s && y != x
    ensures |Without(s, x)| == |s| - if x in s then 1 else 0
  {
    if s != [] {
      var init, last := s[..|s| - 1], s[|s| - 1];
      WithoutIs(init, x);
      assert s == init + [last];
      assert last !in init;
    }
  }

  lemma {:induction false} WithoutOnly<T>(s: seq<T>, x: T, y: T)
    requires y in Without(s, x)
    ensures y in s
    decreases |s|
  {
    var init := s[..|s| - 1];
    assert s == init + [s[|s| - 1]];
    if y in Without(init, x) {
      WithoutOnly(init, x, y);
    }
  }

  /** A repetition shows in the multiset. */
  lemma RepeatsShow<T>(a: seq<T>, i: nat, j: nat)
    requires i < j < |a| && a[i] == a[j]
    ensures multiset(a)[a[i]] >= 2
  {
    assert a == a[..j] + [a[j]] + a[j + 1..];
    assert a[..j][i] in a[..j];
    assert multiset(a) == multiset(a[..j]) + multiset([a[j]]) + multiset(a[j + 1..]);
  }

  lemma {:induction false} OnceCounts<T>(a: seq<T>, k: T)
    requires NoRepeats(a)
    ensures multiset(a)[k] <= 1
    decreases |a|
  {
    if a != [] {
      var init, l := a[..|a| - 1], a[|a| - 1];
      assert a == init + [l];
      assert multiset(a) == multiset(init) + multiset([l]);
      OnceCounts(init, k);
      if l == k {
        assert k !in init;
        assert k !in multiset(init);
      }
    }
  }

  /** No more distinct things than places for them. */
  lemma {:induction false} Pigeonhole<T>(small: seq<T>, big: seq<T>)
    requires NoRepeats(small) && forall k :: k in small ==> k in big
    requires NoRepeats(big)
    ensures |small| <= |big|
    decreases |small|
  {
    if small != [] {
      var init, l := small[..|small| - 1], small[|small| - 1];
      assert l in small && small == init + [l];
      WithoutIs(big, l);
      Pigeonhole(init, Without(big, l));
    }
  }

  lemma {:induction false} SubsetSize<T>(a: set<T>, b: set<T>)
    requires a <= b
    ensures |a| <= |b|
    decreases a
  {
    if a != {} {
      var x :| x in a;
      SubsetSize(a - {x}, b - {x});
    }
  }

  lemma SizeOfPut<K, V>(m: map<K, V>, k: K, v: V)
    requires k !in m
    ensures |m[k := v]| == |m| + 1
  {
    assert m[k := v].Keys == m.Keys + {k};
    assert |m[k := v]| == |m[k := v].Keys| && |m| == |m.Keys|;
  }

  lemma SizeOfDrop<K, V>(m: map<K, V>, k: K)
    ensures |m - {k}| == |m| - if k in m then 1 else 0
  {
    assert (m - {k}).Keys == m.Keys - {k};
    assert |m - {k}| == |(m - {k}).Keys| && |m| == |m.Keys|;
  }
}
