/**
 * Reading a streamed (v3 or v4) root back into the original file: what a store of blocks denotes,
 * and the readers that fetch from getters they do not trust.
 */
module Rebuild {
  import opened Basics
  import opened Recipe
  import opened SampleTransform
  import opened TransformLaws
  import opened Blocks

  const FLAC_CODEC: nat := 1

  // ---- What a store denotes ----

  function NodeAt(f: Foreign, store: Store, cid: Cid): Option<Node> {
    if cid in store then f.decode(store[cid]) else None
  }

  function ManifestAt(f: Foreign, store: Store, root: Cid, version: nat): (r: Option<Node>)
    ensures r.Some? ==> r.value.Manifest?
  {
    var node := NodeAt(f, store, root);
    if node.Some? && node.value.Manifest? && node.value.version == version then node else None
  }

  /** The index inline in the manifest, or spilled to its own block. */
  function IndexOf(f: Foreign, store: Store, m: Node): Option<Index>
    requires m.Manifest?
  {
    if m.index.Some? then m.index
    else if m.indexRoot.None? then None
    else
      var node := NodeAt(f, store, m.indexRoot.value);
      if node.Some? && node.value.IndexBlock? then Some(node.value.spilled) else None
  }

  /** A sample's leaves put together. */
  function LeafBytes(store: Store, s: SampleRef): Option<Bytes> {
    var parts := Gather(store, s.chunks);
    if parts.Some? then Some(Concat(parts.value)) else None
  }

  /** Leaves to native PCM: a FLAC stream or the PCM itself. */
  function DecodeLeaves(f: Foreign, leaves: Bytes, s: SampleRef): Bytes {
    if s.encCodec == FLAC_CODEC then f.flacDecode(leaves, s.channels, s.bitDepth) else leaves
  }

  /** The PCM handed to the player for a sample. */
  function PcmOf(f: Foreign, store: Store, s: SampleRef): Option<Bytes> {
    var leaves := LeafBytes(store, s);
    if leaves.Some? then Some(DecodeLeaves(f, leaves.value, s)) else None
  }

  /** The two programs that rebuild files, each with its own sample transform. */
  datatype Client = Web | Desktop

  function Transform(client: Client, enc: nat, pcm: Bytes, bitDepth: int, channels: int): (r: Bytes)
    ensures |r| == |pcm|
  {
    match client
    case Web => ApplyEncSpec(enc, pcm, bitDepth, channels)
    case Desktop => ApplyEncRust(enc, pcm, bitDepth, channels)
  }

  function OnDisk(client: Client, s: SampleRef, pcm: Bytes): Bytes {
    Transform(client, s.enc, pcm, s.bitDepth, s.channels)
  }

  /** `out` after every sample has been written back at its offset, in order. */
  function WriteSamples(f: Foreign, store: Store, client: Client, out: Bytes, samples: seq<SampleRef>): Option<Bytes>
    decreases |samples|
  {
    if samples == [] then Some(out)
    else
      var s := samples[0];
      var pcm := PcmOf(f, store, s);
      if pcm.None? then None
      else
        var b := OnDisk(client, s, pcm.value);
        if s.offset + |b| > |out| then None
        else WriteSamples(f, store, client, Splice(out, s.offset, b), samples[1..])
  }

  function SkeletonAt(store: Store, m: Node): Option<Bytes>
    requires m.Manifest?
  {
    var parts := Gather(store, m.skeletonChunks);
    if parts.None? then None
    else
      var sk := Assemble(parts.value, m.layout);
      if sk.Ok? && |sk.value| == m.originalLength then Some(sk.value) else None
  }

  function RebuildFrom(f: Foreign, store: Store, root: Cid, client: Client, version: nat): Option<Bytes> {
    var m := ManifestAt(f, store, root, version);
    if m.None? then None
    else
      var ix := IndexOf(f, store, m.value);
      var sk := SkeletonAt(store, m.value);
      if ix.None? || sk.None? then None
      else WriteSamples(f, store, client, sk.value, ix.value.samples)
  }

  lemma {:induction false} WritingKeepsLength(f: Foreign, store: Store, client: Client, out: Bytes, samples: seq<SampleRef>)
    ensures var r := WriteSamples(f, store, client, out, samples);
      r.Some? ==> |r.value| == |out| && forall k :: 0 <= k < |samples| ==> samples[k].offset <= |out|
    decreases |samples|
  {
    hide PcmOf, OnDisk;
    if samples != [] && WriteSamples(f, store, client, out, samples).Some? {
      var s := samples[0];
      var enc := OnDisk(client, s, PcmOf(f, store, s).value);
      WritingKeepsLength(f, store, client, Splice(out, s.offset, enc), samples[1..]);
      assert samples == [s] + samples[1..];
    }
  }

  /** A root denotes a file only under its own version, and a file of the length it names. */
  lemma DenotedIsWhole(f: Foreign, store: Store, root: Cid, client: Client, version: nat)
    requires RebuildFrom(f, store, root, client, version).Some?
    ensures root in store && f.decode(store[root]).Some?
    ensures var m := f.decode(store[root]).value;
      m.Manifest? && m.version == version && |RebuildFrom(f, store, root, client, version).value| == m.originalLength
  {
    hide WriteSamples, Assemble, Gather;
    var m := ManifestAt(f, store, root, version).value;
    WritingKeepsLength(f, store, client, SkeletonAt(store, m).value, IndexOf(f, store, m).value.samples);
  }

  // ---- The readers ----

  method FetchManifest(f: Foreign, get: Getter, root: Cid, verify: bool, version: nat, ghost store: Store)
    returns (r: Result<Node>)
    ensures r.Ok? ==> r.value.Manifest?
    ensures Agrees(r, ManifestAt(f, store, root, version), Trusted(f, store, verify), Served(f, store, get), ServesOnly(f, store, get))
  {
    hide Trusted, Served, ServesOnly;
    OnlyIsServed(f, store, get);
    var bytes := FetchVerified(f, get, 0, root, verify, store);
    if bytes.Err? {
      return Err(bytes.error);
    }
    var node := f.decode(bytes.value);
    if node.None? || !node.value.Manifest? {
      return Err(Undecodable);
    }
    if node.value.version != version {
      return Err(WrongVersion);
    }
    return Ok(node.value);
  }

  method FetchIndex(f: Foreign, get: Getter, m: Node, verify: bool, ghost store: Store)
    returns (r: Result<Index>, n: nat)
    requires m.Manifest?
    ensures Agrees(r, IndexOf(f, store, m), Trusted(f, store, verify), Served(f, store, get), ServesOnly(f, store, get))
  {
    hide Trusted, Served, ServesOnly;
    OnlyIsServed(f, store, get);
    if m.index.Some? {
      return Ok(m.index.value), 1;
    }
    if m.indexRoot.None? {
      return Err(Undecodable), 1;
    }
    var bytes := FetchVerified(f, get, 1, m.indexRoot.value, verify, store);
    if bytes.Err? {
      return Err(bytes.error), 2;
    }
    var node := f.decode(bytes.value);
    if node.None? || !node.value.IndexBlock? {
      return Err(Undecodable), 2;
    }
    return Ok(node.value.spilled), 2;
  }

  method FetchSkeleton(f: Foreign, get: Getter, n: nat, m: Node, verify: bool, ghost store: Store)
    returns (r: Result<Bytes>, n': nat)
    requires m.Manifest?
    ensures Agrees(r, SkeletonAt(store, m), Trusted(f, store, verify), Served(f, store, get), ServesOnly(f, store, get))
  {
    hide Trusted, Served, ServesOnly, Assemble;
    OnlyIsServed(f, store, get);
    var parts;
    parts, n' := FetchAll(f, get, n, m.skeletonChunks, verify, store);
    if parts.Err? {
      return Err(parts.error), n';
    }
    var sk := AssembleSkeleton(parts.value, m.layout);
    if sk.Err? {
      return sk, n';
    }
    if |sk.value| != m.originalLength {
      return Err(LengthMismatch), n';
    }
    return sk, n';
  }

  method FetchPcm(f: Foreign, get: Getter, n: nat, s: SampleRef, verify: bool, ghost store: Store)
    returns (r: Result<Bytes>, n': nat)
    ensures Agrees(r, PcmOf(f, store, s), Trusted(f, store, verify), Served(f, store, get), ServesOnly(f, store, get))
  {
    hide Trusted, Served, ServesOnly;
    OnlyIsServed(f, store, get);
    var parts;
    parts, n' := FetchAll(f, get, n, s.chunks, verify, store);
    if parts.Err? {
      return Err(parts.error), n';
    }
    var leaves := ConcatAll(parts.value);
    return Ok(DecodeLeaves(f, leaves, s)), n';
  }

  /** `out.set(b, off)`: fails past the end. */
  method SetAt(out: array<byte>, b: Bytes, off: nat) returns (ok: bool)
    modifies out
    ensures ok == (off + |b| <= out.Length)
    ensures out[..] == if ok then Splice(old(out[..]), off, b) else old(out[..])
  {
    if off + |b| > out.Length {
      return false;
    }
    forall i | 0 <= i < |b| {
      out[off + i] := b[i];
    }
    return true;
  }

  /** Write every sample's on-disk bytes back over the skeleton. */
  method RestoreSamples(
    f: Foreign, get: Getter, n0: nat, client: Client, skeleton: Bytes, samples: seq<SampleRef>, verify: bool, ghost store: Store)
    returns (r: Result<Bytes>)
    ensures Agrees(r, WriteSamples(f, store, client, skeleton, samples), Trusted(f, store, verify), Served(f, store, get), ServesOnly(f, store, get))
  {
    hide Trusted, Served, ServesOnly, PcmOf, OnDisk, Transform;
    OnlyIsServed(f, store, get);
    var out := new byte[|skeleton|](i requires 0 <= i < |skeleton| => skeleton[i]);
    var n, todo := n0, samples;
    ghost var whole := WriteSamples(f, store, client, skeleton, samples);
    ghost var trust := Trusted(f, store, verify) || Served(f, store, get);
    ghost var exact := ServesOnly(f, store, get);
    assert out[..] == skeleton;
    while todo != []
      invariant (trust && whole.Some?) || exact ==> WriteSamples(f, store, client, out[..], todo) == whole
      decreases |todo|
    {
      var s := todo[0];
      var pcm;
      pcm, n := FetchPcm(f, get, n, s, verify, store);
      if pcm.Err? {
        return Err(pcm.error);
      }
      var enc := ApplyTransform(client, s, pcm.value);
      var ok := SetAt(out, enc, s.offset);
      if !ok {
        return Err(OutOfRange);
      }
      todo := todo[1..];
    }
    r := Ok(out[..]);
  }

  method ApplyTransform(client: Client, s: SampleRef, pcm: Bytes) returns (enc: Bytes)
    ensures enc == OnDisk(client, s, pcm)
  {
    if client == Web {
      enc := ApplyEnc(s.enc, pcm, s.bitDepth, s.channels);
    } else {
      enc := ApplyEncDesktop(s.enc, pcm, s.bitDepth, s.channels);
    }
  }

  /**
   * `reassembleV3` / `reassembleV4` of the web client, and `reassemble_v3` of the desktop one, which
   * always verifies. With verification on, any getter at all leads to failure or to
   * the bytes the store denotes; a getter that serves the store leads to those bytes.
   */
  method Reassemble(f: Foreign, get: Getter, root: Cid, client: Client, verify: bool, version: nat, ghost store: Store)
    returns (r: Result<Bytes>)
    ensures Agrees(r, RebuildFrom(f, store, root, client, version), Trusted(f, store, verify), Served(f, store, get), ServesOnly(f, store, get))
  {
    hide Trusted, Served, ServesOnly, ManifestAt, IndexOf, SkeletonAt, WriteSamples;
    OnlyIsServed(f, store, get);
    var m := FetchManifest(f, get, root, verify, version, store);
    if m.Err? {
      return Err(m.error);
    }
    var ix, n := FetchIndex(f, get, m.value, verify, store);
    if ix.Err? {
      return Err(ix.error);
    }
    var sk, n' := FetchSkeleton(f, get, n, m.value, verify, store);
    if sk.Err? {
      return sk;
    }
    r := RestoreSamples(f, get, n', client, sk.value, ix.value.samples, verify, store);
  }
}
