/**
 * The block DAG: content identifiers, the nodes stored in blocks, the builder's block map and the
 * reader's verified fetch. Hashing, node encoding and FLAC are foreign code, taken as functions.
 */
module Blocks {
  import opened Basics
  import opened Cdc
  import opened SampleTransform
  import opened Plan

  datatype Cid = Cid(codec: nat, digest: Bytes)

  const RAW_CODE: nat := 0x55
  const DAG_CBOR_CODE: nat := 0x71

  /** A v1 sample: its file region and the block listing its chunks. */
  datatype SampleEntry = SampleEntry(offset: nat, length: nat, pcmRoot: Cid)

  /** A streamed sample: how to play it, where it belongs in the file, and how its leaves are coded. */
  datatype SampleRef = SampleRef(
    index: nat, frames: nat, channels: int, bitDepth: int, chunks: seq<Cid>,
    offset: nat, enc: nat, encCodec: nat)

  datatype Index = Index(samples: seq<SampleRef>, plan: Plan)

  datatype Node =
    | ManifestV1(originalLength: nat, skeletonChunks: seq<Cid>, entries: seq<SampleEntry>,
                 segment0: seq<nat>, seek: Option<Plan>)
    | PcmRoot(chunks: seq<Cid>, length: nat)
    | Manifest(version: nat, originalLength: nat, skeletonChunks: seq<Cid>, layout: seq<nat>,
               index: Option<Index>, indexRoot: Option<Cid>)
    | IndexBlock(spilled: Index)

  datatype Foreign = Foreign(
    hash: Bytes -> Bytes,
    encode: Node -> Bytes, decode: Bytes -> Option<Node>, exact: real -> bool,
    flacEncode: (Bytes, int, int) -> Bytes, flacDecode: (Bytes, int, int) -> Bytes)

  /** The times in a plan are ones the encoding carries exactly (double-precision floats). */
  ghost predicate ExactTimes(f: Foreign, times: seq<OrderSec>) {
    forall k :: 0 <= k < |times| ==> f.exact(times[k].seconds)
  }

  ghost predicate Storable(f: Foreign, v: Node) {
    match v
    case ManifestV1(_, _, _, _, seek) => seek.Some? ==> ExactTimes(f, seek.value.orderSeconds)
    case PcmRoot(_, _) => true
    case Manifest(_, _, _, _, index, _) => index.Some? ==> ExactTimes(f, index.value.plan.orderSeconds)
    case IndexBlock(ix) => ExactTimes(f, ix.plan.orderSeconds)
  }

  /** The sample layouts a locator reports. */
  predicate Native(channels: int, bitDepth: int) {
    (channels == 1 || channels == 2) && (bitDepth == 8 || bitDepth == 16)
  }

  /**
   * No hash collisions, nodes decode to what was encoded, and FLAC gives back whole frames: the encoder
   * counts frames by a division and drops what is left over, so a partial frame does not come back.
   */
  ghost predicate Lawful(f: Foreign) {
    && (forall a, b :: f.hash(a) == f.hash(b) ==> a == b)
    && (forall v :: Storable(f, v) ==> f.decode(f.encode(v)) == Some(v))
    && (forall d, ch, bits :: Native(ch, bits) ==>
          (f.flacDecode(f.flacEncode(d, ch, bits), ch, bits) == d <==> WholeFrames(|d|, bits, ch)))
  }

  // ---- The builder's block map ----

  type Store = map<Cid, Bytes>

  ghost predicate Addressed(f: Foreign, store: Store) {
    forall c :: c in store ==> f.hash(store[c]) == c.digest
  }

  ghost predicate Extends(a: Store, b: Store) {
    forall c :: c in a ==> c in b && b[c] == a[c]
  }

  /** Add a block under its CID unless the CID is already there. */
  method AddBlock(f: Foreign, store: Store, codec: nat, bytes: Bytes) returns (cid: Cid, store': Store)
    requires Lawful(f) && Addressed(f, store)
    ensures cid == Cid(codec, f.hash(bytes))
    ensures Addressed(f, store') && Extends(store, store') && cid in store' && store'[cid] == bytes
  {
    cid := Cid(codec, f.hash(bytes));
    store' := if cid in store then store else store[cid := bytes];
  }

  /** The blocks named by a list of CIDs, if all are there. */
  function Gather(store: Store, cids: seq<Cid>): (r: Option<seq<Bytes>>)
    ensures r.Some? <==> forall k :: 0 <= k < |cids| ==> cids[k] in store
    ensures r.Some? ==> |r.value| == |cids|
    ensures r.Some? ==> forall k :: 0 <= k < |cids| ==> r.value[k] == store[cids[k]]
  {
    if forall c :: c in cids ==> c in store then
      Some(seq(|cids|, k requires 0 <= k < |cids| && cids[k] in cids => store[cids[k]]))
    else None
  }

  lemma GatherIs(store: Store, cids: seq<Cid>, blocks: seq<Bytes>)
    requires |cids| == |blocks|
    requires forall k :: 0 <= k < |cids| ==> cids[k] in store && store[cids[k]] == blocks[k]
    ensures Gather(store, cids) == Some(blocks)
  {
    hide Gather;
    assert Gather(store, cids).value == blocks;
  }

  lemma GatherExtends(a: Store, b: Store, cids: seq<Cid>)
    requires Extends(a, b) && Gather(a, cids).Some?
    ensures Gather(b, cids) == Gather(a, cids)
  {
    hide Gather;
    GatherIs(b, cids, Gather(a, cids).value);
  }

  ghost predicate AllRaw(cids: seq<Cid>) {
    forall k :: 0 <= k < |cids| ==> cids[k].codec == RAW_CODE
  }

  /** Content-chunk a buffer into raw leaves. */
  method ChunkToCids(f: Foreign, store: Store, buf: Bytes, cdc: CdcConfig) returns (cids: seq<Cid>, store': Store)
    requires Lawful(f) && Addressed(f, store) && cdc.max > 0
    ensures Addressed(f, store') && Extends(store, store')
    ensures Gather(store', cids) == Some(Chunks(buf, cdc)) && AllRaw(cids)
  {
    var chunks := CdcChunks(buf, cdc);
    cids, store' := AddChunks(f, store, chunks);
  }

  method AddChunks(f: Foreign, store: Store, chunks: seq<Bytes>) returns (cids: seq<Cid>, store': Store)
    requires Lawful(f) && Addressed(f, store)
    ensures Addressed(f, store') && Extends(store, store')
    ensures Gather(store', cids) == Some(chunks) && AllRaw(cids)
  {
    hide Lawful, Addressed, Gather;
    cids, store' := [], store;
    for k := 0 to |chunks|
      invariant Addressed(f, store') && Extends(store, store')
      invariant |cids| == k && AllRaw(cids)
      invariant forall i :: 0 <= i < k ==> cids[i] in store' && store'[cids[i]] == chunks[i]
    {
      var cid;
      cid, store' := AddBlock(f, store', RAW_CODE, chunks[k]);
      cids := cids + [cid];
    }
    GatherIs(store', cids, chunks);
  }

  // ---- The reader ----

  /** Block getters may be adversarial: the answer may depend on how many requests came before. */
  type Getter = (nat, Cid) -> Option<Bytes>

  ghost predicate Honest(get: Getter, store: Store) {
    forall n: nat, c :: c in store ==> get(n, c) == Some(store[c])
  }

  /**
   * A read against a getter agrees with the value the built store holds: always when blocks are
   * verified; it succeeds when the getter serves the store; and when the getter serves nothing else, it
   * fails where the store holds no such value.
   */
  ghost predicate Agrees<T>(r: Result<T>, held: Option<T>, trusted: bool, honest: bool, exact: bool) {
    && (trusted && r.Ok? && held.Some? ==> r.value == held.value)
    && (honest && held.Some? ==> r == Ok(held.value))
    && (exact && held.None? ==> r.Err?)
  }

  ghost predicate Trusted(f: Foreign, store: Store, verify: bool) { verify && Lawful(f) && Addressed(f, store) }

  ghost predicate Served(f: Foreign, store: Store, get: Getter) { Addressed(f, store) && Honest(get, store) }

  ghost predicate ServesOnly(f: Foreign, store: Store, get: Getter) {
    Addressed(f, store) && forall n: nat, c :: get(n, c) == Held(store, c)
  }

  function Held(store: Store, cid: Cid): Option<Bytes> {
    if cid in store then Some(store[cid]) else None
  }

  method FetchVerified(f: Foreign, get: Getter, n: nat, cid: Cid, verify: bool, ghost store: Store)
    returns (r: Result<Bytes>)
    ensures r.Ok? ==> get(n, cid) == Some(r.value) && (verify ==> f.hash(r.value) == cid.digest)
    ensures Agrees(r, Held(store, cid), Trusted(f, store, verify), Served(f, store, get), ServesOnly(f, store, get))
  {
    var served := get(n, cid);
    if served.None? {
      return Err(Unavailable);
    }
    if verify && f.hash(served.value) != cid.digest {
      return Err(Tampered);
    }
    return Ok(served.value);
  }

  method FetchAll(f: Foreign, get: Getter, n: nat, cids: seq<Cid>, verify: bool, ghost store: Store)
    returns (r: Result<seq<Bytes>>, n': nat)
    ensures Agrees(r, Gather(store, cids), Trusted(f, store, verify), Served(f, store, get), ServesOnly(f, store, get))
  {
    hide Trusted, Served, ServesOnly, Gather;
    var blocks: seq<Bytes> := [];
    n' := n;
    for k := 0 to |cids|
      invariant |blocks| == k
      invariant Trusted(f, store, verify) ==>
        forall i :: 0 <= i < k && cids[i] in store ==> blocks[i] == store[cids[i]]
      invariant Served(f, store, get) ==>
        forall i :: 0 <= i < k && cids[i] in store ==> blocks[i] == store[cids[i]]
      invariant ServesOnly(f, store, get) ==> forall i :: 0 <= i < k ==> cids[i] in store
    {
      var b := FetchVerified(f, get, n', cids[k], verify, store);
      n' := n' + 1;
      if b.Err? {
        return Err(b.error), n';
      }
      blocks := blocks + [b.value];
    }
    if Gather(store, cids).Some? && (Trusted(f, store, verify) || Served(f, store, get)) {
      GatherIs(store, cids, blocks);
    }
    r := Ok(blocks);
  }

  lemma OnlyIsServed(f: Foreign, store: Store, get: Getter)
    ensures ServesOnly(f, store, get) ==> Served(f, store, get)
  {
  }
}
