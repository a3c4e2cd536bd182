/** Runs of the playlist store: replicas agree, and a polling client misses nothing. */
module PlaylistLaws {
  import opened Basics
  import opened Playlist
  import opened Envelope

  // ---- Replicas ----

  /** A store's states while it hears `heard` at the times `nows`, from empty, with no write calling for an eviction. */
  ghost predicate RoomyRun(states: seq<Store>, heard: seq<Message>, nows: seq<int>, storeDocs: bool, caps: Caps) {
    && |states| == |heard| + 1 && |nows| == |heard|
    && if heard == [] then states[0] == Store(map[], 0, 0)
       else
         var n := |heard| - 1;
         && RoomyRun(states[..n + 1], heard[..n], nows[..n], storeDocs, caps)
         && Ingested(states[n], states[n + 1], heard[n], storeDocs, caps, nows[n])
         && Roomy(states[n], heard[n], storeDocs, caps, nows[n])
  }

  ghost predicate Roomy(s: Store, m: Message, storeDocs: bool, caps: Caps, now: int) {
    Newer(s, m) ==> !Over(Written(s, m, storeDocs, now), caps)
  }

  /** Whoever publishes under a name gives each sequence number one record and one document. */
  ghost predicate Published(heard: seq<Message>, content: (string, nat) -> (Bytes, Bytes)) {
    forall m :: m in heard ==> (m.rec, m.doc) == content(m.name, m.seqNo)
  }

  predicate IsFrom(e: Entry, m: Message, storeDocs: bool) {
    e.seqNo == m.seqNo && e.rec == m.rec && e.doc == if storeDocs then m.doc else []
  }

  /** The first message of the highest sequence number heard for a name. */
  function NewestOf(heard: seq<Message>, n: string): Option<Message> {
    if heard == [] then None
    else
      var before, m := NewestOf(heard[..|heard| - 1], n), heard[|heard| - 1];
      if m.name == n && (before.None? || before.value.seqNo < m.seqNo) then Some(m) else before
  }

  predicate Holds(entries: Entries, n: string, newest: Option<Message>, storeDocs: bool) {
    if newest.None? then n !in entries else n in entries && IsFrom(entries[n], newest.value, storeDocs)
  }

  /** The store holds, for every name, the newest message heard for it, and nothing else. */
  ghost predicate HoldsNewest(s: Store, heard: seq<Message>, storeDocs: bool) {
    forall n :: Holds(s.entries, n, NewestOf(heard, n), storeDocs)
  }

  lemma {:induction false} NewestOfIs(heard: seq<Message>, n: string)
    ensures NewestOf(heard, n).None? ==> forall m :: m in heard ==> m.name != n
    ensures NewestOf(heard, n).Some? ==>
      var newest := NewestOf(heard, n).value;
      && newest in heard && newest.name == n
      && forall m :: m in heard && m.name == n ==> m.seqNo <= newest.seqNo
  {
    if heard != [] {
      NewestOfIs(heard[..|heard| - 1], n);
      assert heard == heard[..|heard| - 1] + [heard[|heard| - 1]];
    }
  }

  /** What a roomy ingest leaves under each name. */
  lemma RoomyIngest(s: Store, t: Store, m: Message, storeDocs: bool, caps: Caps, now: int, n: string)
    requires Ingested(s, t, m, storeDocs, caps, now) && Roomy(s, m, storeDocs, caps, now)
    ensures n in t.entries <==> n in s.entries || n == m.name
    ensures n in s.entries && (n != m.name || !Newer(s, m)) ==>
      t.entries[n].seqNo == s.entries[n].seqNo && t.entries[n].rec == s.entries[n].rec && t.entries[n].doc == s.entries[n].doc
    ensures n == m.name && Newer(s, m) ==> IsFrom(t.entries[n], m, storeDocs)
  {
    if Newer(s, m) {
      FittingIsKept(Written(s, m, storeDocs, now), t.entries, caps);
    }
  }

  lemma IngestHoldsNewest(s: Store, t: Store, heard: seq<Message>, m: Message, storeDocs: bool, caps: Caps, now: int)
    requires HoldsNewest(s, heard, storeDocs)
    requires Ingested(s, t, m, storeDocs, caps, now) && Roomy(s, m, storeDocs, caps, now)
    ensures HoldsNewest(t, heard + [m], storeDocs)
  {
    hide Ingested, Roomy;
    assert (heard + [m])[..|heard|] == heard;
    forall n ensures Holds(t.entries, n, NewestOf(heard + [m], n), storeDocs) {
      RoomyIngest(s, t, m, storeDocs, caps, now, n);
      assert Holds(s.entries, n, NewestOf(heard, n), storeDocs);
    }
  }

  lemma NothingHeard(storeDocs: bool)
    ensures HoldsNewest(Store(map[], 0, 0), [], storeDocs)
  {
  }

  /** A store that never had to evict holds, for every name heard, the newest message heard. */
  lemma {:induction false} ReplicaHoldsNewest(states: seq<Store>, heard: seq<Message>, nows: seq<int>, storeDocs: bool, caps: Caps)
    requires RoomyRun(states, heard, nows, storeDocs, caps)
    ensures HoldsNewest(states[|heard|], heard, storeDocs)
    decreases |heard|
  {
    hide HoldsNewest, Ingested, Roomy;
    if heard == [] {
      NothingHeard(storeDocs);
    } else {
      var n := |heard| - 1;
      ReplicaHoldsNewest(states[..n + 1], heard[..n], nows[..n], storeDocs, caps);
      assert heard == heard[..n] + [heard[n]];
      IngestHoldsNewest(states[n], states[n + 1], heard[..n], heard[n], storeDocs, caps, nows[n]);
    }
  }

  /**
   * Two stores that heard the same messages, in any order and any number of times, hold the same
   * records at the same sequence numbers, and the same documents if both keep documents.
   */
  lemma ReplicasConverge(a: seq<Store>, heardA: seq<Message>, nowsA: seq<int>, docsA: bool, capsA: Caps,
                         b: seq<Store>, heardB: seq<Message>, nowsB: seq<int>, docsB: bool, capsB: Caps,
                         content: (string, nat) -> (Bytes, Bytes))
    requires RoomyRun(a, heardA, nowsA, docsA, capsA) && RoomyRun(b, heardB, nowsB, docsB, capsB)
    requires forall m :: m in heardA <==> m in heardB
    requires Published(heardA, content)
    ensures Agree(a[|heardA|].entries, b[|heardB|].entries, docsA == docsB)
  {
    hide Ingested, Roomy, Published, HoldsNewest;
    ReplicaHoldsNewest(a, heardA, nowsA, docsA, capsA);
    ReplicaHoldsNewest(b, heardB, nowsB, docsB, capsB);
    NewestAgree(a[|heardA|], heardA, docsA, b[|heardB|], heardB, docsB, content);
  }

  /** The same names at the same sequence numbers with the same records, and the same documents if both keep them. */
  ghost predicate Agree(s: Entries, t: Entries, docs: bool) {
    && s.Keys == t.Keys
    && forall n :: n in s ==>
      && s[n].seqNo == t[n].seqNo && s[n].rec == t[n].rec
      && (docs ==> s[n].doc == t[n].doc)
  }

  lemma NewestAgree(s: Store, heardA: seq<Message>, docsA: bool, t: Store, heardB: seq<Message>, docsB: bool,
                    content: (string, nat) -> (Bytes, Bytes))
    requires HoldsNewest(s, heardA, docsA) && HoldsNewest(t, heardB, docsB)
    requires forall m :: m in heardA <==> m in heardB
    requires Published(heardA, content)
    ensures Agree(s.entries, t.entries, docsA == docsB)
  {
    hide Published;
    forall n
      ensures n in s.entries <==> n in t.entries
      ensures n in s.entries ==> s.entries[n].seqNo == t.entries[n].seqNo && s.entries[n].rec == t.entries[n].rec
      ensures n in s.entries && docsA == docsB ==> s.entries[n].doc == t.entries[n].doc
    {
      SameNewest(heardA, heardB, content, n);
      assert Holds(s.entries, n, NewestOf(heardA, n), docsA) && Holds(t.entries, n, NewestOf(heardB, n), docsB);
    }
  }

  lemma SameNewest(heardA: seq<Message>, heardB: seq<Message>, content: (string, nat) -> (Bytes, Bytes), n: string)
    requires forall m :: m in heardA <==> m in heardB
    requires Published(heardA, content)
    ensures NewestOf(heardA, n) == NewestOf(heardB, n)
  {
    NewestOfIs(heardA, n);
    NewestOfIs(heardB, n);
    hide NewestOf;
    if NewestOf(heardA, n).Some? && NewestOf(heardB, n).Some? {
      var a, b := NewestOf(heardA, n).value, NewestOf(heardB, n).value;
      assert a in heardB && b in heardA;
    }
  }

  // ---- What a node keeps ----

  /** Under the node's caps the entry seen strictly last always stays: a document that decodes fits. */
  lemma NodeKeepsNewest(before: Entries, after: Entries, name: string)
    requires Evicted(before, after, NODE_CAPS) && name in before && |before[name].doc| <= DOC_MAX
    requires forall n :: n in before && n != name ==> before[n].lastSeen < before[name].lastSeen
    ensures name in after
  {
    NewestStaysIffItFits(before, after, NODE_CAPS, name);
  }

  // ---- The poll cursor ----

  /** A store, and a client that polls it: its cursor, what it knows, and the writes it was given. */
  datatype World = World(store: Store, cursor: nat, known: map<string, Record>, given: seq<nat>)

  datatype Event = Gossip(message: Message, now: int) | Poll(out: seq<Record>)

  /** What `Since(v)` may return. */
  ghost predicate IsSince(s: Store, v: nat, out: seq<Record>) {
    && (forall r :: r in out <==> r.name in s.entries && s.entries[r.name].ver > v && r == RecordOf(r.name, s.entries[r.name]))
    && forall i, j :: 0 <= i < j < |out| ==> out[i].name != out[j].name
  }

  function Learn(known: map<string, Record>, out: seq<Record>): map<string, Record> {
    if out == [] then known
    else Learn(known, out[..|out| - 1])[out[|out| - 1].name := out[|out| - 1]]
  }

  /** The writes the returned records stand for. */
  ghost function Writes(s: Store, out: seq<Record>): seq<nat>
    requires forall r :: r in out ==> r.name in s.entries
  {
    seq(|out|, i requires 0 <= i < |out| => assert out[i] in out; s.entries[out[i].name].ver)
  }

  ghost predicate Next(w: World, e: Event, w': World, storeDocs: bool, caps: Caps) {
    match e
    case Gossip(m, now) =>
      && Ingested(w.store, w'.store, m, storeDocs, caps, now)
      && w' == w.(store := w'.store)
    case Poll(out) =>
      && IsSince(w.store, w.cursor, out)
      && w' == World(w.store, w.store.version, Learn(w.known, out), w.given + Writes(w.store, out))
  }

  ghost predicate Polling(ws: seq<World>, es: seq<Event>, storeDocs: bool, caps: Caps) {
    && |ws| == |es| + 1
    && if es == [] then ws[0] == World(Store(map[], 0, 0), 0, map[], [])
       else
         var n := |es| - 1;
         Polling(ws[..n + 1], es[..n], storeDocs, caps) && Next(ws[n], es[n], ws[n + 1], storeDocs, caps)
  }

  /** What the client knows of an entry is right up to its cursor. */
  ghost predicate UpToDate(w: World, v: nat) {
    forall n :: n in w.store.entries && w.store.entries[n].ver <= v ==>
      n in w.known && w.known[n] == RecordOf(n, w.store.entries[n])
  }

  ghost predicate GivenOnce(w: World) {
    && (forall g :: g in w.given ==> g <= w.cursor)
    && forall i, j :: 0 <= i < j < |w.given| ==> w.given[i] != w.given[j]
  }

  ghost predicate Following(w: World) {
    Versioned(w.store) && w.cursor <= w.store.version && UpToDate(w, w.cursor) && GivenOnce(w)
  }

  lemma {:induction false} LearnIs(known: map<string, Record>, out: seq<Record>)
    requires forall i, j :: 0 <= i < j < |out| ==> out[i].name != out[j].name
    ensures forall r :: r in out ==> r.name in Learn(known, out) && Learn(known, out)[r.name] == r
    ensures forall n :: n in known && (forall r :: r in out ==> r.name != n) ==>
      n in Learn(known, out) && Learn(known, out)[n] == known[n]
    decreases |out|
  {
    if out != [] {
      var init, l := out[..|out| - 1], out[|out| - 1];
      assert out == init + [l];
      LearnIs(known, init);
      hide Learn;
      assert Learn(known, out) == Learn(known, init)[l.name := l] by { LearnOne(known, out); }
      assert l in out && forall r | r in init :: r in out && r.name != l.name;
    }
  }

  lemma LearnOne(known: map<string, Record>, out: seq<Record>)
    requires out != []
    ensures Learn(known, out) == Learn(known, out[..|out| - 1])[out[|out| - 1].name := out[|out| - 1]]
  {
  }

  lemma GossipFollows(w: World, m: Message, now: int, w': World, storeDocs: bool, caps: Caps)
    requires Following(w) && Next(w, Gossip(m, now), w', storeDocs, caps)
    ensures Following(w')
  {
    IngestKeepsVersions(w.store, w'.store, m, storeDocs, caps, now);
    var written := if Newer(w.store, m) then Written(w.store, m, storeDocs, now)
                   else w.store.entries[m.name := w.store.entries[m.name].(lastSeen := now)];
    assert forall n | n in w'.store.entries :: n in written && w'.store.entries[n] == written[n];
  }

  lemma PollFollows(w: World, out: seq<Record>, w': World, storeDocs: bool, caps: Caps)
    requires Following(w) && Next(w, Poll(out), w', storeDocs, caps)
    ensures Following(w') && UpToDate(w', w'.store.version)
  {
    LearnIs(w.known, out);
    PollGivesOnce(w, out, w', storeDocs, caps);
    var s := w.store;
    forall n | n in s.entries ensures n in w'.known && w'.known[n] == RecordOf(n, s.entries[n]) {
      if s.entries[n].ver > w.cursor {
        assert RecordOf(n, s.entries[n]) in out;
      } else {
        assert forall r | r in out :: r.name != n;
      }
    }
  }

  lemma PollGivesOnce(w: World, out: seq<Record>, w': World, storeDocs: bool, caps: Caps)
    requires Following(w) && Next(w, Poll(out), w', storeDocs, caps)
    ensures GivenOnce(w')
  {
    var ws := Writes(w.store, out);
    forall i | 0 <= i < |ws| ensures w.cursor < ws[i] <= w.store.version {
      assert out[i] in out;
    }
    forall i, j | 0 <= i < j < |ws| ensures ws[i] != ws[j] {
      assert out[i] in out && out[j] in out;
    }
    forall i, j | 0 <= i < j < |w'.given| ensures w'.given[i] != w'.given[j] {
      var k := |w.given|;
      if i < k <= j {
        assert w.given[i] in w.given && w'.given[j] == ws[j - k];
      } else if k <= i {
        assert w'.given[i] == ws[i - k] && w'.given[j] == ws[j - k];
      }
    }
  }

  /** Over every run of gossip and polls the client follows the store. */
  lemma {:induction false} PollingFollows(ws: seq<World>, es: seq<Event>, storeDocs: bool, caps: Caps)
    requires Polling(ws, es, storeDocs, caps)
    ensures Following(ws[|es|])
    decreases |es|
  {
    if es != [] {
      hide Next, Following;
      var n := |es| - 1;
      PollingFollows(ws[..n + 1], es[..n], storeDocs, caps);
      match es[n]
      case Gossip(m, now) => GossipFollows(ws[n], m, now, ws[n + 1], storeDocs, caps);
      case Poll(out) => PollFollows(ws[n], out, ws[n + 1], storeDocs, caps);
    }
  }

  /**
   * After any run that ends in a poll the client agrees with the store on every name still present,
   * and over the whole run no write was given to it twice.
   */
  lemma PollingMissesNothing(ws: seq<World>, es: seq<Event>, storeDocs: bool, caps: Caps)
    requires Polling(ws, es, storeDocs, caps) && es != [] && es[|es| - 1].Poll?
    ensures var w := ws[|es|];
      && (forall n :: n in w.store.entries ==> n in w.known && w.known[n] == RecordOf(n, w.store.entries[n]))
      && (forall i, j :: 0 <= i < j < |w.given| ==> w.given[i] != w.given[j])
  {
    var n := |es| - 1;
    PollingFollows(ws[..n + 1], es[..n], storeDocs, caps);
    PollFollows(ws[n], es[n].out, ws[n + 1], storeDocs, caps);
    hide Next;
  }
}
