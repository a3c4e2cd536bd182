/** Writes into a caller's buffer. */
module Buffers {
  import opened Basics

  /** `buf.fill(0, from)` */
  method Fill(buf: array<byte>, from: nat)
    requires from <= buf.Length
    modifies buf
    ensures buf[..] == old(buf[..from]) + Zeros(buf.Length - from)
  {
    for i := from to buf.Length
      invariant buf[..i] == old(buf[..from]) + Zeros(i - from)
    {
      buf[i] := 0;
    }
  }

  /** `buf.set(part, at)` */
  method Put(buf: array<byte>, at: nat, part: Bytes)
    requires at + |part| <= buf.Length
    modifies buf
    ensures buf[..at + |part|] == old(buf[..at]) + part
    ensures buf[at + |part|..] == old(buf[at + |part|..])
  {
    for i := 0 to |part|
      invariant buf[..at + i] == old(buf[..at]) + part[..i]
      invariant buf[at + i..] == old(buf[at + i..])
    {
      buf[at + i] := part[i];
    }
  }
}
