/** The stable sort by an integer key that the program's library calls perform. */
module Sorting {
  import opened Basics

  function Insert<T>(x: T, s: seq<T>, key: T -> int): seq<T> {
    if s == [] || key(x) <= key(s[0]) then [x] + s else [s[0]] + Insert(x, s[1..], key)
  }

  function SortBy<T>(s: seq<T>, key: T -> int): seq<T> {
    if s == [] then [] else Insert(s[0], SortBy(s[1..], key), key)
  }

  ghost predicate SortedBy<T>(s: seq<T>, key: T -> int) {
    forall i, j :: 0 <= i < j < |s| ==> key(s[i]) <= key(s[j])
  }

  lemma {:induction false} InsertKeepsMembers<T>(x: T, s: seq<T>, key: T -> int)
    ensures multiset(Insert(x, s, key)) == multiset([x]) + multiset(s)
    ensures forall y :: y in Insert(x, s, key) ==> y == x || y in s
  {
    if s == [] || key(x) <= key(s[0]) {
    } else {
      InsertKeepsMembers(x, s[1..], key);
      assert s == [s[0]] + s[1..];
    }
  }

  lemma {:induction false} InsertKeepsOrder<T>(x: T, s: seq<T>, key: T -> int)
    requires SortedBy(s, key)
    ensures SortedBy(Insert(x, s, key), key)
  {
    if s == [] || key(x) <= key(s[0]) {
    } else {
      InsertKeepsOrder(x, s[1..], key);
      InsertKeepsMembers(x, s[1..], key);
      var t := Insert(x, s[1..], key);
      forall j | 0 <= j < |t|
        ensures key(s[0]) <= key(t[j])
      {
        assert t[j] in t;
      }
    }
  }

  lemma {:induction false} SortByIsASort<T>(s: seq<T>, key: T -> int)
    ensures SortedBy(SortBy(s, key), key)
    ensures multiset(SortBy(s, key)) == multiset(s)
  {
    if s != [] {
      SortByIsASort(s[1..], key);
      InsertKeepsOrder(s[0], SortBy(s[1..], key), key);
      InsertKeepsMembers(s[0], SortBy(s[1..], key), key);
      assert s == [s[0]] + s[1..];
    }
  }

  lemma SortByKeepsMembers<T>(s: seq<T>, key: T -> int)
    ensures |SortBy(s, key)| == |s|
    ensures forall x :: x in SortBy(s, key) <==> x in s
  {
    SortByIsASort(s, key);
    assert |multiset(SortBy(s, key))| == |multiset(s)|;
    assert forall x :: x in s <==> x in multiset(s);
    assert forall x :: x in SortBy(s, key) <==> x in multiset(SortBy(s, key));
  }

  lemma {:induction false} SortOfSorted<T>(s: seq<T>, key: T -> int)
    requires SortedBy(s, key)
    ensures SortBy(s, key) == s
  {
    if s != [] {
      SortOfSorted(s[1..], key);
    }
  }

  // ---- Dropping and rewriting elements commutes with sorting ----

  function FilterMap<T, U>(s: seq<T>, f: T -> Option<U>): seq<U> {
    if s == [] then []
    else if f(s[0]).Some? then [f(s[0]).value] + FilterMap(s[1..], f)
    else FilterMap(s[1..], f)
  }

  ghost predicate KeepsKey<T(!new)>(f: T -> Option<T>, key: T -> int) {
    forall x :: f(x).Some? ==> key(f(x).value) == key(x)
  }

  lemma {:induction false} InsertBelow<T>(x: T, s: seq<T>, key: T -> int)
    requires forall i :: 0 <= i < |s| ==> key(x) <= key(s[i])
    ensures Insert(x, s, key) == [x] + s
  {
  }

  lemma {:induction false} FilterMapMembers<T, U>(s: seq<T>, f: T -> Option<U>)
    ensures forall y :: y in FilterMap(s, f) <==> exists x :: x in s && f(x) == Some(y)
  {
    if s != [] {
      FilterMapMembers(s[1..], f);
      assert s == [s[0]] + s[1..];
    }
  }

  lemma {:induction false} FilterMapInsert<T(!new)>(x: T, s: seq<T>, f: T -> Option<T>, key: T -> int)
    requires SortedBy(s, key) && KeepsKey(f, key)
    ensures FilterMap(Insert(x, s, key), f) ==
      if f(x).Some? then Insert(f(x).value, FilterMap(s, f), key) else FilterMap(s, f)
  {
    if s == [] {
    } else if key(x) <= key(s[0]) {
      assert ([x] + s)[1..] == s;
      FilterMapMembers(s, f);
      var t := FilterMap(s, f);
      forall i | 0 <= i < |t|
        ensures key(x) <= key(t[i])
      {
        assert t[i] in t;
      }
      if f(x).Some? {
        InsertBelow(f(x).value, t, key);
      }
    } else {
      FilterMapInsert(x, s[1..], f, key);
      assert ([s[0]] + Insert(x, s[1..], key))[1..] == Insert(x, s[1..], key);
    }
  }

  /** Pruning a sorted list is sorting the pruned list. */
  lemma {:induction false} FilterMapSort<T(!new)>(s: seq<T>, f: T -> Option<T>, key: T -> int)
    requires KeepsKey(f, key)
    ensures FilterMap(SortBy(s, key), f) == SortBy(FilterMap(s, f), key)
  {
    if s != [] {
      FilterMapSort(s[1..], f, key);
      SortByIsASort(s[1..], key);
      FilterMapInsert(s[0], SortBy(s[1..], key), f, key);
    }
  }

  lemma {:induction false} FilterMapSnoc<T, U>(s: seq<T>, x: T, f: T -> Option<U>)
    ensures FilterMap(s + [x], f) == FilterMap(s, f) + if f(x).Some? then [f(x).value] else []
  {
    if s == [] {
      assert [] + [x] == [x] && [x][1..] == [];
    } else {
      assert (s + [x])[1..] == s[1..] + [x];
      FilterMapSnoc(s[1..], x, f);
    }
  }

  lemma {:induction false} FilterMapAppend<T, U>(a: seq<T>, b: seq<T>, f: T -> Option<U>)
    ensures FilterMap(a + b, f) == FilterMap(a, f) + FilterMap(b, f)
    decreases |b|
  {
    if b == [] {
      assert a + b == a;
    } else {
      assert a + b == (a + [b[0]]) + b[1..];
      FilterMapAppend(a + [b[0]], b[1..], f);
      FilterMapSnoc(a, b[0], f);
    }
  }

  /** Where an element that survives lands. */
  lemma FilterMapPosition<T, U>(s: seq<T>, f: T -> Option<U>, k: nat)
    requires k < |s| && f(s[k]).Some?
    ensures var p, j := FilterMap(s, f), |FilterMap(s[..k], f)|;
      j < |p| && p[j] == f(s[k]).value && |FilterMap(s[..k + 1], f)| == j + 1
      && p[j + 1..] == FilterMap(s[k + 1..], f)
  {
    assert s[..k + 1] == s[..k] + [s[k]] && s == s[..k + 1] + s[k + 1..];
    FilterMapSnoc(s[..k], s[k], f);
    FilterMapAppend(s[..k + 1], s[k + 1..], f);
  }
}
