/** The playlist gossip envelope: a version byte, then three parts, each behind its length as a Base 128 Varint. */
module Envelope {
  import opened Basics

  const VERSION: byte := 1
  const NAME_MAX: nat := 128
  const DOC_MAX: nat := 1048576

  /** The record cap comes from the IPNS library. */
  datatype Parts = Parts(name: Bytes, rec: Bytes, doc: Bytes)

  // ---- Varints, as Go's encoding/binary reads and writes them ----

  function AppendUvarint(x: nat): (b: Bytes)
    ensures b != []
  {
    if x < 128 then [x] else [x % 128 + 128] + AppendUvarint(x / 128)
  }

  /** The value that starts at byte `i` of a varint, with the bytes it takes; at most ten, and the tenth at most 1. */
  function Uvarint(b: Bytes, i: nat): Option<(nat, nat)> {
    if b == [] || i == 10 then None
    else if b[0] < 128 then (if i == 9 && b[0] > 1 then None else Some((b[0], 1)))
    else
      match Uvarint(b[1..], i + 1)
      case None => None
      case Some((v, n)) => Some((b[0] - 128 + 128 * v, n + 1))
  }

  /** What fits in the bytes from `i` on. */
  function Limit(i: nat): (l: nat)
    ensures l >= 2
    decreases 9 - i
  {
    if i >= 9 then 2 else 128 * Limit(i + 1)
  }

  // ---- Frames ----

  function ReadFrame(b: Bytes, max: nat): Result<(Bytes, Bytes)> {
    match Uvarint(b, 0)
    case None => Err(MalformedFrame)
    case Some((l, n)) =>
      if n > |b| || l > max || |b| - n < l then Err(MalformedFrame) else Ok((b[n..n + l], b[n + l..]))
  }

  function Frame(part: Bytes): Bytes {
    AppendUvarint(|part|) + part
  }

  function Encoded(p: Parts): Bytes {
    [VERSION] + Frame(p.name) + Frame(p.rec) + Frame(p.doc)
  }

  function Decode(b: Bytes, recMax: nat): Result<Parts> {
    if b == [] || b[0] != VERSION then Err(WrongVersion)
    else
      match ReadFrame(b[1..], NAME_MAX)
      case Err(e) => Err(e)
      case Ok((name, b1)) =>
        match ReadFrame(b1, recMax)
        case Err(e) => Err(e)
        case Ok((rec, b2)) =>
          match ReadFrame(b2, DOC_MAX)
          case Err(e) => Err(e)
          case Ok((doc, b3)) => if b3 != [] then Err(TrailingBytes) else Ok(Parts(name, rec, doc))
  }

  function FrameAll(parts: seq<Bytes>): Bytes {
    if parts == [] then [] else FrameAll(parts[..|parts| - 1]) + Frame(parts[|parts| - 1])
  }

  lemma FrameAllNext(parts: seq<Bytes>, i: nat)
    requires i < |parts|
    ensures FrameAll(parts[..i + 1]) == FrameAll(parts[..i]) + (AppendUvarint(|parts[i]|) + parts[i])
  {
    assert parts[..i + 1][..i] == parts[..i];
  }

  method EncodePlaylistMsg(p: Parts) returns (buf: Bytes)
    ensures buf == Encoded(p)
  {
    hide FrameAll, AppendUvarint, Encoded;
    var parts := [p.name, p.rec, p.doc];
    buf := [VERSION];
    assert FrameAll(parts[..0]) == [] by { NoFrames(parts[..0]); }
    var i: nat := 0;
    while i < |parts|
      invariant i <= |parts| && buf == [VERSION] + FrameAll(parts[..i])
    {
      FrameAllNext(parts, i);
      buf := buf + AppendUvarint(|parts[i]|);
      buf := buf + parts[i];
      i := i + 1;
    }
    ThreeFrames(p);
    assert parts[..3] == parts;
  }

  lemma NoFrames(parts: seq<Bytes>)
    ensures parts == [] ==> FrameAll(parts) == []
  {
  }

  lemma ThreeFrames(p: Parts)
    ensures [VERSION] + FrameAll([p.name, p.rec, p.doc]) == Encoded(p)
  {
    hide Frame;
    var two := [p.name, p.rec];
    assert two[..1] == [p.name] && [p.name][..0] == [];
    assert [p.name, p.rec, p.doc][..2] == two;
    assert FrameAll([p.name]) == [] + Frame(p.name);
  }

  // ---- Laws ----

  predicate WithinCaps(p: Parts, recMax: nat) {
    |p.name| <= NAME_MAX && |p.rec| <= recMax && |p.doc| <= DOC_MAX
  }

  /** Lengths a 64-bit machine can have. */
  predicate Possible(p: Parts) {
    |p.name| < Limit(0) && |p.rec| < Limit(0) && |p.doc| < Limit(0)
  }

  /** A varint is read back whatever follows it. */
  lemma {:induction false} VarintRoundTrips(x: nat, rest: Bytes, i: nat)
    requires i <= 9 && x < Limit(i)
    ensures Uvarint(AppendUvarint(x) + rest, i) == Some((x, |AppendUvarint(x)|))
    decreases x
  {
    var b := AppendUvarint(x) + rest;
    if x >= 128 {
      assert b[1..] == AppendUvarint(x / 128) + rest;
      VarintRoundTrips(x / 128, rest, i + 1);
    }
  }

  /** Seven bits a byte, least significant first. */
  function Positional(b: Bytes): nat {
    if b == [] then 0 else b[0] % 128 + 128 * Positional(b[1..])
  }

  /** A varint ends with its first byte below 128 and is the number its low bits spell. */
  lemma {:induction false} UvarintIsPositional(b: Bytes, i: nat)
    requires Uvarint(b, i).Some?
    ensures var (v, n) := Uvarint(b, i).value;
      && 0 < n <= |b| && b[n - 1] < 128 && (forall k :: 0 <= k < n - 1 ==> b[k] >= 128) && v == Positional(b[..n])
    decreases |b|
  {
    var (v, n) := Uvarint(b, i).value;
    if b[0] >= 128 {
      UvarintIsPositional(b[1..], i + 1);
      assert b[..n][1..] == b[1..][..n - 1];
    } else {
      assert b[..1][1..] == [] && b[..1][0] == b[0];
    }
  }

  lemma FrameRoundTrips(part: Bytes, rest: Bytes, max: nat)
    requires |part| < Limit(0)
    ensures ReadFrame(Frame(part) + rest, max) == if |part| <= max then Ok((part, rest)) else Err(MalformedFrame)
  {
    var v := AppendUvarint(|part|);
    assert Frame(part) + rest == v + (part + rest);
    VarintRoundTrips(|part|, part + rest, 0);
    assert (v + (part + rest))[|v|..|v| + |part|] == part;
    assert (v + (part + rest))[|v| + |part|..] == rest;
  }

  /** An encoded message decodes to its parts exactly when they are within the caps and nothing follows. */
  lemma EncodedRoundTrips(p: Parts, rest: Bytes, recMax: nat)
    requires Possible(p)
    ensures Decode(Encoded(p) + rest, recMax) ==
      if !WithinCaps(p, recMax) then Err(MalformedFrame)
      else if rest != [] then Err(TrailingBytes)
      else Ok(p)
  {
    hide ReadFrame, Frame;
    var b := Encoded(p) + rest;
    var b2 := Frame(p.doc) + rest;
    var b1 := Frame(p.rec) + b2;
    assert b == [VERSION] + (Frame(p.name) + b1);
    assert b[1..] == Frame(p.name) + b1;
    FrameRoundTrips(p.name, b1, NAME_MAX);
    FrameRoundTrips(p.rec, b2, recMax);
    FrameRoundTrips(p.doc, rest, DOC_MAX);
  }

  /** No encoded message is a proper prefix of another, and none encodes two messages. */
  lemma EncodedIsPrefixFree(p: Parts, q: Parts, rest: Bytes)
    requires Possible(p) && Possible(q) && Encoded(p) + rest == Encoded(q)
    ensures rest == [] && p == q
  {
    hide Frame;
    var r := q.doc;
    assert [VERSION] + (Frame(p.name) + (Frame(p.rec) + (Frame(p.doc) + rest))) == Encoded(p) + rest;
    assert [VERSION] + (Frame(q.name) + (Frame(q.rec) + (Frame(q.doc) + []))) == Encoded(q);
    AfterFirst(VERSION, Frame(p.name) + (Frame(p.rec) + (Frame(p.doc) + rest)), Frame(q.name) + (Frame(q.rec) + (Frame(q.doc) + [])));
    FramesAgree(p.name, Frame(p.rec) + (Frame(p.doc) + rest), q.name, Frame(q.rec) + (Frame(q.doc) + []));
    FramesAgree(p.rec, Frame(p.doc) + rest, q.rec, Frame(q.doc) + []);
    FramesAgree(p.doc, rest, q.doc, []);
  }

  lemma AfterFirst(x: byte, a: Bytes, b: Bytes)
    requires [x] + a == [x] + b
    ensures a == b
  {
    assert ([x] + a)[1..] == a && ([x] + b)[1..] == b;
  }

  lemma FramesAgree(a: Bytes, restA: Bytes, b: Bytes, restB: Bytes)
    requires |a| < Limit(0) && |b| < Limit(0) && Frame(a) + restA == Frame(b) + restB
    ensures a == b && restA == restB
  {
    hide Frame, ReadFrame;
    FrameRoundTrips(a, restA, |a| + |b|);
    FrameRoundTrips(b, restB, |a| + |b|);
  }

  // ---- What else decodes ----

  /** What a varint read from byte `i` on can be. */
  lemma {:induction false} UvarintFits(b: Bytes, i: nat)
    requires i <= 10 && Uvarint(b, i).Some?
    ensures var (v, n) := Uvarint(b, i).value;
      0 < n <= |b| && n <= 10 - i && v < Limit(i)
    decreases |b|
  {
    if b[0] >= 128 {
      UvarintFits(b[1..], i + 1);
    } else if i < 9 {
      assert Limit(i + 1) >= 2;
    }
  }

  /** A varint is the shortest for its value exactly when its last byte is not a zero after others. */
  lemma {:induction false} ShortestIffNoZeroTail(b: Bytes, i: nat)
    requires i <= 10 && Uvarint(b, i).Some?
    ensures var (v, n) := Uvarint(b, i).value;
      && 0 < n <= |b|
      && (b[..n] == AppendUvarint(v) <==> n == 1 || b[n - 1] != 0)
    decreases |b|
  {
    var (v, n) := Uvarint(b, i).value;
    if b[0] < 128 {
      assert b[..1] == [b[0]];
    } else {
      ShortestIffNoZeroTail(b[1..], i + 1);
      var (w, m) := Uvarint(b[1..], i + 1).value;
      assert b[..n] == [b[0]] + b[1..][..m];
      if v >= 128 {
        assert v / 128 == w && v % 128 == b[0] - 128;
        assert AppendUvarint(v)[0] == b[0] && AppendUvarint(v)[1..] == AppendUvarint(w);
        assert b[..n][1..] == b[1..][..m];
      } else {
        assert w == 0 && |AppendUvarint(v)| == 1;
        ZeroIsZeros(b[1..], i + 1);
      }
    }
  }

  lemma {:induction false} ZeroIsZeros(b: Bytes, i: nat)
    requires Uvarint(b, i).Some? && Uvarint(b, i).value.0 == 0
    ensures var n := Uvarint(b, i).value.1;
      0 < n <= |b| && b[n - 1] == 0
    decreases |b|
  {
    if b[0] >= 128 {
      ZeroIsZeros(b[1..], i + 1);
    }
  }

  /** The length prefix of the frame at the head of `b` is the shortest. */
  predicate Shortest(b: Bytes) {
    match Uvarint(b, 0)
    case None => false
    case Some((_, n)) => n == 1 || (0 < n <= |b| && b[n - 1] != 0)
  }

  lemma FrameIffShortest(b: Bytes, max: nat)
    requires ReadFrame(b, max).Ok?
    ensures var (part, rest) := ReadFrame(b, max).value;
      && |part| <= max && |part| < Limit(0) && |rest| < |b|
      && (b == Frame(part) + rest <==> Shortest(b))
  {
    ShortestIffNoZeroTail(b, 0);
    UvarintFits(b, 0);
    var (l, n) := Uvarint(b, 0).value;
    var (part, rest) := ReadFrame(b, max).value;
    assert b == b[..n] + part + rest;
    if b == Frame(part) + rest {
      VarintRoundTrips(l, part + rest, 0);
      assert Frame(part) + rest == AppendUvarint(l) + (part + rest);
      assert b[..n] == AppendUvarint(l);
    }
  }

  /** The three frames a decoded message was read from. */
  function Frames(b: Bytes, recMax: nat): (Bytes, Bytes, Bytes)
    requires Decode(b, recMax).Ok?
  {
    var b1 := ReadFrame(b[1..], NAME_MAX).value.1;
    var b2 := ReadFrame(b1, recMax).value.1;
    (b[1..], b1, b2)
  }

  /** One byte each of name, record and document, as they travel. */
  lemma EncodingOfThreeBytes(n: byte, r: byte, d: byte)
    ensures Encoded(Parts([n], [r], [d])) == [1, 1, n, 1, r, 1, d]
  {
    assert AppendUvarint(1) == [1];
  }

  /** An empty message whose first length takes two bytes decodes, and is not what its parts encode to. */
  lemma LongPrefixDecodes()
    ensures Decode([VERSION, 0x80, 0, 0, 0], 10) == Ok(Parts([], [], []))
    ensures Encoded(Parts([], [], [])) == [VERSION, 0, 0, 0]
  {
    hide ReadFrame, AppendUvarint;
    var b1, b2, b3: Bytes := [0, 0], [0], [];
    assert [VERSION, 0x80, 0, 0, 0][1..] == [0x80, 0] + b1;
    LongEmptyFrame(b1, NAME_MAX);
    assert b1 == [0] + b2 && b2 == [0] + b3;
    EmptyFrame(b2, 10);
    EmptyFrame(b3, DOC_MAX);
    assert AppendUvarint(0) == [0] by { EmptyLength(); }
  }

  lemma EmptyLength()
    ensures AppendUvarint(0) == [0]
  {
  }

  lemma EmptyFrame(rest: Bytes, max: nat)
    ensures ReadFrame([0] + rest, max) == Ok(([], rest))
  {
    assert ([0] + rest)[1..1] == [] && ([0] + rest)[1..] == rest;
  }

  lemma LongEmptyFrame(rest: Bytes, max: nat)
    ensures ReadFrame([0x80, 0] + rest, max) == Ok(([], rest))
  {
    var b: Bytes := [0x80, 0] + rest;
    assert b[1..] == [0] + rest && b[2..2] == [] && b[2..] == rest;
    assert Uvarint(b[1..], 1) == Some((0, 1));
  }

  /** A message that decodes is within the caps, and is the encoding of its parts exactly when its length prefixes are shortest. */
  lemma DecodedIsEncodedIffShortest(b: Bytes, recMax: nat)
    requires Decode(b, recMax).Ok?
    ensures var p := Decode(b, recMax).value;
      && WithinCaps(p, recMax) && Possible(p)
      && var (f1, f2, f3) := Frames(b, recMax);
        Encoded(p) == b <==> Shortest(f1) && Shortest(f2) && Shortest(f3)
  {
    hide ReadFrame, Frame, Shortest;
    var p := Decode(b, recMax).value;
    var (f1, f2, f3) := Frames(b, recMax);
    FrameIffShortest(f1, NAME_MAX);
    FrameIffShortest(f2, recMax);
    FrameIffShortest(f3, DOC_MAX);
    var e2 := Frame(p.doc) + [];
    var e1 := Frame(p.rec) + e2;
    assert Encoded(p) == [VERSION] + (Frame(p.name) + e1);
    assert b == [VERSION] + f1;
    if Encoded(p) == b {
      AfterFirst(VERSION, f1, Frame(p.name) + e1);
      FrameRoundTrips(p.name, e1, NAME_MAX);
      FrameRoundTrips(p.rec, e2, recMax);
    } else {
      assert Encoded(p)[0] == b[0] && Encoded(p)[1..] == Frame(p.name) + e1;
    }
  }
}
