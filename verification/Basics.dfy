/** Byte strings, optional values and failures shared by every part of the model. */
module Basics {

  type byte = x: int | 0 <= x < 256
  type Bytes = seq<byte>

  datatype Option<+T> = None | Some(value: T)

  /** The ways the modelled operations fail where the program throws or returns an error. */
  datatype Error =
    | Unavailable        // a block getter had nothing to serve
    | Tampered           // a block did not hash to its CID
    | Undecodable        // bytes that are not a node of the expected shape
    | WrongVersion
    | LengthMismatch
    | LayoutOverrun      // a recipe names more chunks than it carries
    | OutOfRange         // a typed-array write past the end
    | CompressedSample
    | MalformedFrame
    | TrailingBytes

  datatype Result<+T> = Ok(value: T) | Err(error: Error)

  function Min(a: int, b: int): int { if a <= b then a else b }

  function Max(a: int, b: int): int { if a >= b then a else b }

  function Zeros(n: nat): (z: Bytes) { seq(n, _ => 0) }

  function Concat(parts: seq<Bytes>): Bytes {
    if parts == [] then [] else parts[0] + Concat(parts[1..])
  }

  lemma {:induction false} ConcatAppend(a: seq<Bytes>, b: seq<Bytes>)
    ensures Concat(a + b) == Concat(a) + Concat(b)
  {
    if a == [] {
      assert a + b == b;
    } else {
      assert (a + b)[0] == a[0] && (a + b)[1..] == a[1..] + b;
      ConcatAppend(a[1..], b);
    }
  }

  /** `out` with `b` written at `off`, the effect of `out.set(b, off)` inside bounds. */
  function Splice(out: Bytes, off: nat, b: Bytes): (r: Bytes)
    requires off + |b| <= |out|
    ensures |r| == |out|
    ensures forall i :: 0 <= i < |out| ==> r[i] == if off <= i < off + |b| then b[i - off] else out[i]
  {
    out[..off] + b + out[off + |b|..]
  }
}
