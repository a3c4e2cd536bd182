/** The web catalog's page cache: a map in insertion order, oldest first, re-inserted on every hit. */
module PageLru {
  import opened Basics
  import opened Sequences

  /** A page of a catalog: its root and its index. */
  datatype Key = Key(root: string, page: int)

  function Touch(order: seq<Key>, k: Key): seq<Key> {
    if k in order then Without(order, k) + [k] else order
  }

  /** A new key goes last; the oldest go while there are more than `cap`. */
  function Admit(order: seq<Key>, k: Key, cap: nat): seq<Key> {
    if k in order then order
    else if |order| + 1 > cap then (order + [k])[|order| + 1 - cap..] else order + [k]
  }

  lemma TouchKeeps(order: seq<Key>, k: Key)
    requires NoRepeats(order)
    ensures NoRepeats(Touch(order, k)) && |Touch(order, k)| == |order|
    ensures forall x :: x in Touch(order, k) <==> x in order
  {
    WithoutIs(order, k);
  }

  lemma AdmitKeeps(order: seq<Key>, k: Key, cap: nat)
    requires NoRepeats(order) && |order| <= cap && cap > 0
    ensures NoRepeats(Admit(order, k, cap)) && |Admit(order, k, cap)| <= cap && k in Admit(order, k, cap)
    ensures forall x :: x in Admit(order, k, cap) ==> x == k || x in order
  {
    var all := order + [k];
    assert Admit(order, k, cap) != [];
    assert k !in order ==> Admit(order, k, cap)[|Admit(order, k, cap)| - 1] == k;
  }

  // ---- What was used last is evicted last ----

  /** How many entries were used after `k`. */
  function Behind(order: seq<Key>, k: Key): nat {
    if order == [] || order[|order| - 1] == k then 0 else 1 + Behind(order[..|order| - 1], k)
  }

  /** If `k` is resident at all, fewer than `d` entries were used after it. */
  ghost predicate Near(order: seq<Key>, k: Key, d: nat) {
    k in order ==> Behind(order, k) < d
  }

  lemma {:induction false} WithoutBehind(order: seq<Key>, k: Key, x: Key)
    requires k != x
    ensures Behind(Without(order, x), k) <= Behind(order, k)
    ensures k in order ==> k in Without(order, x)
    decreases |order|
  {
    if order != [] {
      var init, last := order[..|order| - 1], order[|order| - 1];
      assert order == init + [last];
      WithoutBehind(init, k, x);
      var w := Without(init, x);
      if last == x {
        assert Without(order, x) == w;
      } else {
        assert Without(order, x) == w + [last] && (w + [last])[..|w|] == w;
      }
    }
  }

  /** A hit puts at most one entry behind the others. */
  lemma TouchNear(order: seq<Key>, k: Key, d: nat, x: Key)
    requires Near(order, k, d)
    ensures Near(Touch(order, x), k, d + if x in order then 1 else 0)
    ensures k in order ==> k in Touch(order, x)
  {
    if x in order && k != x {
      WithoutBehind(order, k, x);
      var w := Without(order, x);
      assert (w + [x])[..|w|] == w;
      assert k in w + [x] ==> k in w;
      if k in w {
        WithoutOnly(order, x, k);
      }
    }
  }

  lemma {:induction false} BehindOfOldest(order: seq<Key>, k: Key)
    requires k in order && k !in order[1..]
    ensures Behind(order, k) == |order| - 1
    decreases |order|
  {
    assert order == [order[0]] + order[1..];
    if |order| > 1 {
      var init := order[..|order| - 1];
      assert order[1..][|order| - 2] == order[|order| - 1];
      assert order[1..] == init[1..] + [order[|order| - 1]];
      assert init == [order[0]] + init[1..];
      BehindOfOldest(init, k);
    }
  }

  lemma {:induction false} BehindInTail(order: seq<Key>, k: Key)
    requires order != [] && k in order[1..]
    ensures Behind(order[1..], k) == Behind(order, k)
    decreases |order|
  {
    assert order[1..][|order| - 2] == order[|order| - 1];
    if order[|order| - 1] != k {
      var init := order[..|order| - 1];
      assert order[1..] == init[1..] + [order[|order| - 1]];
      assert order[1..][..|order| - 2] == init[1..];
      BehindInTail(init, k);
    }
  }

  /** A new entry goes behind the others, and nothing near the recent end is evicted for it. */
  lemma AdmitNear(order: seq<Key>, k: Key, d: nat, x: Key, cap: nat)
    requires |order| <= cap && d < cap && Near(order, k, d)
    ensures Near(Admit(order, x, cap), k, d + 1)
    ensures k in order || k == x ==> k in Admit(order, x, cap)
  {
    if x !in order {
      var all := order + [x];
      assert all[..|order|] == order && all[|order|] == x;
      assert Near(all, k, d + 1);
      if |order| == cap {
        assert Admit(order, x, cap) == all[1..];
        assert all == [all[0]] + all[1..];
        if k in all[1..] {
          BehindInTail(all, k);
        } else if k in all {
          BehindOfOldest(all, k);
        }
      }
    }
  }

  // ---- The class ----

  /** The keys of the map are `order`, and every entry is the page its key names. */
  ghost predicate Coherent(order: seq<Key>, vals: map<Key, Bytes>, content: Key -> Bytes) {
    && NoRepeats(order)
    && (forall k :: k in order <==> k in vals)
    && (forall k :: k in vals ==> vals[k] == content(k))
  }

  lemma EvictKeeps(order: seq<Key>, vals: map<Key, Bytes>, content: Key -> Bytes)
    requires Coherent(order, vals, content) && order != []
    ensures Coherent(order[1..], vals - {order[0]}, content)
  {
    assert order == [order[0]] + order[1..];
  }

  lemma SetKeeps(order: seq<Key>, vals: map<Key, Bytes>, content: Key -> Bytes, k: Key)
    requires Coherent(order, vals, content) && k !in order
    ensures Coherent(order + [k], vals[k := content(k)], content)
  {
  }

  lemma HitKeeps(order: seq<Key>, vals: map<Key, Bytes>, content: Key -> Bytes, k: Key)
    requires Coherent(order, vals, content)
    ensures Coherent(Touch(order, k), vals, content) && |Touch(order, k)| == |order|
  {
    TouchKeeps(order, k);
  }

  class PageCache {
    var order: seq<Key>
    var vals: map<Key, Bytes>
    const cap: nat
    ghost const content: Key -> Bytes

    /** Every entry is the page its key names, and there are at most `cap`. */
    ghost predicate Valid()
      reads this
    {
      cap > 0 && |order| <= cap && Coherent(order, vals, content)
    }

    constructor (cap: nat, ghost content: Key -> Bytes)
      requires cap > 0
      ensures Valid() && order == [] && this.cap == cap && this.content == content
    {
      order, vals := [], map[];
      this.cap, this.content := cap, content;
    }

    method Get(k: Key) returns (r: Option<Bytes>)
      requires Valid()
      modifies this
      ensures Valid() && vals == old(vals) && order == Touch(old(order), k)
      ensures r == if k in old(order) then Some(content(k)) else None
    {
      HitKeeps(order, vals, content, k);
      if k !in vals {
        return None;
      }
      order := Without(order, k) + [k];
      r := Some(vals[k]);
    }

    method Put(k: Key, v: Bytes)
      requires Valid() && v == content(k)
      modifies this
      ensures Valid() && order == Admit(old(order), k, cap)
    {
      hide NoRepeats;
      if k in vals {
        return;
      }
      SetKeeps(order, vals, content, k);
      ghost var all := order + [k];
      order, vals := order + [k], vals[k := v];
      ghost var gone := 0;
      while |order| > cap
        invariant gone <= |all| && order == all[gone..]
        invariant gone > 0 ==> |order| >= cap
        invariant Coherent(order, vals, content)
      {
        EvictKeeps(order, vals, content);
        vals := vals - {order[0]};
        order := order[1..];
        gone := gone + 1;
      }
    }
  }
}
