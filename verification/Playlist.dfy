/** The playlist relay buffer: newest sequence wins, bounded, least recently seen goes first. */
module Playlist {
  import opened Basics

  datatype Entry = Entry(rec: Bytes, doc: Bytes, seqNo: nat, ver: nat, lastSeen: int)

  datatype Message = Message(name: string, rec: Bytes, doc: Bytes, seqNo: nat)

  datatype Record = Record(name: string, seqNo: nat, rec: Bytes, doc: Bytes)

  type Entries = map<string, Entry>

  datatype Caps = Caps(entries: nat, bytes: nat)

  /** The caps the node ships with. */
  const NODE_CAPS := Caps(8192, 16 * 1024 * 1024)

  datatype Store = Store(entries: Entries, docBytes: int, version: nat)

  // ---- Accounting ----

  /** The document bytes held. */
  ghost function DocSum(m: Entries): nat {
    if m == map[] then 0
    else
      var k :| k in m;
      |m[k].doc| + DocSum(m - {k})
  }

  lemma {:induction false} DocSumWithout(m: Entries, k: string)
    requires k in m
    ensures DocSum(m) == |m[k].doc| + DocSum(m - {k})
    decreases |m|
  {
    var j :| j in m && DocSum(m) == |m[j].doc| + DocSum(m - {j});
    if j != k {
      DocSumWithout(m - {j}, k);
      DocSumWithout(m - {k}, j);
      assert m - {j} - {k} == m - {k} - {j};
    }
  }

  lemma DocSumPut(m: Entries, k: string, e: Entry)
    ensures DocSum(m[k := e]) == DocSum(m) + |e.doc| - if k in m then |m[k].doc| else 0
  {
    DocSumWithout(m[k := e], k);
    if k in m {
      DocSumWithout(m, k);
      assert m[k := e] - {k} == m - {k};
    } else {
      assert m[k := e] - {k} == m;
    }
  }

  ghost predicate Over(m: Entries, caps: Caps) {
    m != map[] && (|m| > caps.entries || DocSum(m) > caps.bytes)
  }

  ghost predicate Kept(m: Entries, of: Entries) {
    forall n :: n in m ==> n in of && m[n] == of[n]
  }

  /** Nothing kept was seen before anything dropped. */
  ghost predicate OldestGone(before: Entries, after: Entries) {
    forall d, k :: d in before && d !in after && k in after ==> before[d].lastSeen <= after[k].lastSeen
  }

  /** The drop of `last`, a most recently seen one of the dropped, was still called for. */
  ghost predicate Needed(before: Entries, after: Entries, caps: Caps, last: string) {
    && last in before && last !in after && Over(after[last := before[last]], caps)
    && forall d :: d in before && d !in after ==> before[d].lastSeen <= before[last].lastSeen
  }

  /** `after` is what eviction leaves: within the caps, by dropping a least recently seen set and no more than needed. */
  ghost predicate Evicted(before: Entries, after: Entries, caps: Caps) {
    && Kept(after, before)
    && !Over(after, caps)
    && OldestGone(before, after)
    && (after == before || exists last :: Needed(before, after, caps, last))
  }

  lemma {:induction false} DocSumKept(m: Entries, of: Entries)
    requires Kept(m, of)
    ensures DocSum(m) <= DocSum(of) && |m| <= |of|
    decreases |m|
  {
    if m != map[] {
      var k :| k in m;
      DocSumWithout(m, k);
      DocSumWithout(of, k);
      DocSumKept(m - {k}, of - {k});
      assert (m - {k}).Keys == m.Keys - {k} && (of - {k}).Keys == of.Keys - {k};
    }
  }

  /** Within the caps eviction drops nothing. */
  lemma FittingIsKept(before: Entries, after: Entries, caps: Caps)
    requires Evicted(before, after, caps) && !Over(before, caps)
    ensures after == before
  {
    if after != before {
      var last :| Needed(before, after, caps, last);
      DocSumKept(after[last := before[last]], before);
      assert false;
    }
  }

  /** The entry seen strictly last stays exactly when its own document fits. */
  lemma NewestStaysIffItFits(before: Entries, after: Entries, caps: Caps, name: string)
    requires Evicted(before, after, caps) && caps.entries > 0 && name in before
    requires forall n :: n in before && n != name ==> before[n].lastSeen < before[name].lastSeen
    ensures name in after <==> |before[name].doc| <= caps.bytes
  {
    if name in after {
      DocSumWithout(after, name);
    } else {
      assert forall k | k in after :: k in before && k != name;
      assert after == map[];
      var last :| Needed(before, after, caps, last);
      assert last == name;
      var alone := after[name := before[name]];
      assert alone.Keys == {name};
      assert |alone| == |alone.Keys|;
      DocSumPut(after, name, before[name]);
    }
  }

  /** With distinct clock readings there is one way to evict. */
  lemma EvictionIsUnique(before: Entries, a: Entries, b: Entries, caps: Caps)
    requires Evicted(before, a, caps) && Evicted(before, b, caps)
    requires forall j, k :: j in before && k in before && before[j].lastSeen == before[k].lastSeen ==> j == k
    ensures a == b
  {
    hide Over, OldestGone, Needed;
    forall x ensures x in a <==> x in b {
      KeptByOneIsKeptByBoth(before, a, b, caps, x);
      KeptByOneIsKeptByBoth(before, b, a, caps, x);
    }
    SameKeysAgree(before, a, b);
  }

  lemma SameKeysAgree(before: Entries, a: Entries, b: Entries)
    requires Kept(a, before) && Kept(b, before) && forall x :: x in a <==> x in b
    ensures a == b
  {
  }

  lemma KeptByOneIsKeptByBoth(before: Entries, a: Entries, b: Entries, caps: Caps, x: string)
    requires Evicted(before, a, caps) && Evicted(before, b, caps)
    requires forall j, k :: j in before && k in before && before[j].lastSeen == before[k].lastSeen ==> j == k
    ensures x in a ==> x in b
  {
    hide DocSum, Over;
    if x in a && x !in b {
      var last :| Needed(before, b, caps, last);
      var more := b[last := before[last]];
      assert last in a by {
        assert before[x].lastSeen <= before[last].lastSeen;
      }
      forall n | n in more ensures n in a && more[n] == a[n] {
        if n in b {
          assert before[x].lastSeen <= b[n].lastSeen;
        }
      }
      OverGrows(more, a, caps);
      assert false;
    }
  }

  lemma OverGrows(m: Entries, of: Entries, caps: Caps)
    requires Kept(m, of) && Over(m, caps)
    ensures Over(of, caps)
  {
    DocSumKept(m, of);
    assert m.Keys <= of.Keys;
  }

  // ---- Steps ----

  function RecordOf(name: string, e: Entry): Record {
    Record(name, e.seqNo, e.rec, e.doc)
  }

  /** The entries as they are written, before eviction. */
  function Written(s: Store, m: Message, storeDocs: bool, now: int): Entries {
    s.entries[m.name := Entry(m.rec, if storeDocs then m.doc else [], m.seqNo, s.version + 1, now)]
  }

  predicate Newer(s: Store, m: Message) {
    m.name in s.entries ==> s.entries[m.name].seqNo < m.seqNo
  }

  /** One ingest: a newer message is written and the excess evicted; any other only refreshes the clock. */
  ghost predicate Ingested(s: Store, t: Store, m: Message, storeDocs: bool, caps: Caps, now: int) {
    if Newer(s, m) then
      t.version == s.version + 1 && Evicted(Written(s, m, storeDocs, now), t.entries, caps)
    else
      t.version == s.version && t.entries == s.entries[m.name := s.entries[m.name].(lastSeen := now)]
  }

  /** The books are straight, and every entry carries the version it was written at. */
  ghost predicate Sound(s: Store, caps: Caps) {
    && s.docBytes == DocSum(s.entries)
    && !Over(s.entries, caps)
    && "" !in s.entries
    && Versioned(s)
  }

  ghost predicate Versioned(s: Store) {
    VersionsOk(s.entries, s.version)
  }

  ghost predicate VersionsOk(m: Entries, v: nat) {
    && (forall n :: n in m ==> 0 < m[n].ver <= v)
    && (forall j, k :: j in m && k in m && m[j].ver == m[k].ver ==> j == k)
  }

  lemma WriteVersions(m: Entries, v: nat, name: string, e: Entry)
    requires VersionsOk(m, v) && e.ver == v + 1
    ensures VersionsOk(m[name := e], v + 1)
  {
  }

  lemma RefreshVersions(m: Entries, v: nat, name: string, now: int)
    requires VersionsOk(m, v) && name in m
    ensures VersionsOk(m[name := m[name].(lastSeen := now)], v)
  {
  }

  lemma KeptVersions(t: Entries, m: Entries, v: nat)
    requires Kept(t, m) && VersionsOk(m, v)
    ensures VersionsOk(t, v)
  {
  }

  lemma IngestKeepsVersions(s: Store, t: Store, m: Message, storeDocs: bool, caps: Caps, now: int)
    requires Versioned(s) && Ingested(s, t, m, storeDocs, caps, now)
    ensures Versioned(t)
  {
    hide VersionsOk, Kept, Over, OldestGone, Needed;
    if Newer(s, m) {
      WriteVersions(s.entries, s.version, m.name, Written(s, m, storeDocs, now)[m.name]);
      KeptVersions(t.entries, Written(s, m, storeDocs, now), s.version + 1);
    } else {
      RefreshVersions(s.entries, s.version, m.name, now);
    }
  }

  // ---- The class ----

  class PlaylistStore {
    var entries: Entries
    var docBytes: int
    var version: nat
    const storeDocs: bool
    const caps: Caps

    ghost function State(): Store
      reads this
    {
      Store(entries, docBytes, version)
    }

    ghost predicate Valid()
      reads this
    {
      Sound(State(), caps)
    }

    constructor (storeDocs: bool, caps: Caps)
      ensures Valid() && entries == map[] && version == 0
      ensures this.storeDocs == storeDocs && this.caps == caps
    {
      entries, docBytes, version := map[], 0, 0;
      this.storeDocs, this.caps := storeDocs, caps;
    }

    method Ingest(m: Message, now: int) returns (stored: bool)
      requires Valid() && m.name != ""
      modifies this
      ensures Valid()
      ensures stored == Newer(old(State()), m)
      ensures Ingested(old(State()), State(), m, storeDocs, caps, now)
    {
      hide DocSum, Versioned, Evicted;
      ghost var was := State();
      if m.name in entries {
        RefreshKeepsSum(entries, m.name, now);
        if entries[m.name].seqNo >= m.seqNo {
          entries := entries[m.name := entries[m.name].(lastSeen := now)];
          IngestKeepsVersions(was, State(), m, storeDocs, caps, now);
          return false;
        }
        docBytes := docBytes - |entries[m.name].doc|;
      }
      var doc := if storeDocs then m.doc else [];
      DocSumPut(entries, m.name, Entry(m.rec, doc, m.seqNo, version + 1, now));
      docBytes := docBytes + |doc|;
      version := version + 1;
      entries := entries[m.name := Entry(m.rec, doc, m.seqNo, version, now)];
      ghost var before := entries;
      Evict();
      EvictedKeeps(before, entries, caps, "");
      IngestKeepsVersions(was, State(), m, storeDocs, caps, now);
      return true;
    }

    /** Drops the least recently seen entry while over a cap. */
    method Evict()
      requires docBytes == DocSum(entries) && "" !in entries
      modifies this`entries, this`docBytes
      ensures docBytes == DocSum(entries)
      ensures Evicted(old(entries), entries, caps)
    {
      hide DocSum, Dropped, Evicted, Over;
      ghost var before := entries;
      NothingDropped(before, caps);
      while |entries| > 0 && (|entries| > caps.entries || docBytes > caps.bytes)
        invariant docBytes == DocSum(entries) && "" !in entries
        invariant Dropped(before, entries, caps)
        decreases |entries|
      {
        var name := Oldest();
        DocSumWithout(entries, name);
        IsOver(entries, caps);
        DropOldest(before, entries, caps, name);
        docBytes := docBytes - |entries[name].doc|;
        entries := entries - {name};
      }
      IsOver(entries, caps);
      DroppedEnough(before, entries, caps);
    }

    /** The walk over the map, in any order. */
    method Oldest() returns (oldName: string)
      requires entries != map[] && "" !in entries
      ensures oldName in entries && forall n :: n in entries ==> entries[oldName].lastSeen <= entries[n].lastSeen
    {
      var todo := entries.Keys;
      oldName := "";
      var oldAt := 0;
      while todo != {}
        invariant todo <= entries.Keys && (oldName == "" ==> todo == entries.Keys)
        invariant oldName != "" ==> oldName in entries && oldAt == entries[oldName].lastSeen
        invariant oldName != "" ==> forall n :: n in entries && n !in todo ==> oldAt <= entries[n].lastSeen
        decreases todo
      {
        var name :| name in todo;
        todo := todo - {name};
        if oldName == "" || entries[name].lastSeen < oldAt {
          oldName, oldAt := name, entries[name].lastSeen;
        }
      }
    }

    /** The entries written after version `v`, in any order, and the current version. */
    method Since(v: nat) returns (ver: nat, out: seq<Record>)
      ensures ver == version
      ensures forall r :: r in out <==> r.name in entries && entries[r.name].ver > v && r == RecordOf(r.name, entries[r.name])
      ensures forall i, j :: 0 <= i < j < |out| ==> out[i].name != out[j].name
    {
      var todo := entries.Keys;
      out := [];
      while todo != {}
        invariant todo <= entries.Keys
        invariant forall r :: r in out <==>
          r.name in entries && r.name !in todo && entries[r.name].ver > v && r == RecordOf(r.name, entries[r.name])
        invariant forall i, j :: 0 <= i < j < |out| ==> out[i].name != out[j].name
        decreases todo
      {
        var name :| name in todo;
        assert forall r | r in out :: r.name != name;
        todo := todo - {name};
        if entries[name].ver > v {
          out := out + [RecordOf(name, entries[name])];
        }
      }
      ver := version;
    }
  }

  lemma RefreshKeepsSum(m: Entries, name: string, now: int)
    requires name in m
    ensures var t := m[name := m[name].(lastSeen := now)];
      DocSum(t) == DocSum(m) && |t| == |m|
  {
    var t := m[name := m[name].(lastSeen := now)];
    DocSumPut(m, name, m[name].(lastSeen := now));
    assert t.Keys == m.Keys;
    assert |t| == |t.Keys| && |m| == |m.Keys|;
  }

  lemma EvictedKeeps(before: Entries, after: Entries, caps: Caps, n: string)
    requires Evicted(before, after, caps)
    ensures n in after ==> n in before
    ensures !Over(after, caps)
  {
  }

  /** Part of an eviction: the oldest went, and the last to go had to. */
  ghost predicate Dropped(before: Entries, now: Entries, caps: Caps) {
    && Kept(now, before) && OldestGone(before, now)
    && (now == before || exists last :: Needed(before, now, caps, last))
  }

  lemma NothingDropped(m: Entries, caps: Caps)
    ensures Dropped(m, m, caps)
  {
  }

  lemma DroppedEnough(before: Entries, now: Entries, caps: Caps)
    requires Dropped(before, now, caps) && !Over(now, caps)
    ensures Evicted(before, now, caps)
  {
  }

  lemma IsOver(m: Entries, caps: Caps)
    ensures Over(m, caps) <==> |m| > 0 && (|m| > caps.entries || DocSum(m) > caps.bytes)
  {
  }

  lemma DropOldest(before: Entries, now: Entries, caps: Caps, name: string)
    requires Dropped(before, now, caps) && Over(now, caps)
    requires name in now && forall n :: n in now ==> now[name].lastSeen <= now[n].lastSeen
    ensures Dropped(before, now - {name}, caps)
    ensures |now - {name}| == |now| - 1
  {
    assert (now - {name})[name := before[name]] == now;
    assert Needed(before, now - {name}, caps, name);
    assert (now - {name}).Keys == now.Keys - {name};
    assert |now - {name}| == |(now - {name}).Keys| && |now| == |now.Keys|;
  }
}
