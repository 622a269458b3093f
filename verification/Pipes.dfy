/** A kernel pipe: a bounded byte buffer with one write side, as seen by partial reads and writes. */
module Pipes {
  import opened Wire

  /** `hist` is everything ever written and `rd` how much of it has been read, so the buffer holds hist[rd..]. */
  datatype Pipe = Pipe(cap: nat, hist: seq<Byte>, rd: nat, open: bool)

  predicate Valid(p: Pipe)
  {
    0 < p.cap && p.rd <= |p.hist| && |p.hist| - p.rd <= p.cap
  }

  function Unread(p: Pipe): nat
    requires Valid(p)
  {
    |p.hist| - p.rd
  }

  /** A write of a chunk blocks until some of it fits; then it takes between one byte and all that fits. */
  predicate CanWrite(p: Pipe, k: nat)
  {
    Valid(p) && p.open && 0 < k <= p.cap - Unread(p)
  }

  function Write(p: Pipe, chunk: seq<Byte>): (p': Pipe)
    requires CanWrite(p, |chunk|)
    ensures Valid(p') && Unread(p') == Unread(p) + |chunk|
  {
    p.(hist := p.hist + chunk)
  }

  /** A read takes between one byte and all that is there. */
  predicate CanRead(p: Pipe, k: nat)
  {
    Valid(p) && 0 < k <= Unread(p)
  }

  function Chunk(p: Pipe, k: nat): (c: seq<Byte>)
    requires CanRead(p, k)
    ensures |c| == k
  {
    p.hist[p.rd..p.rd + k]
  }

  function Read(p: Pipe, k: nat): (p': Pipe)
    requires CanRead(p, k)
    ensures Valid(p') && Unread(p') == Unread(p) - k
  {
    p.(rd := p.rd + k)
  }

  /** read returns 0 only when the buffer is empty and the write side is closed. */
  predicate AtEof(p: Pipe)
  {
    Valid(p) && Unread(p) == 0 && !p.open
  }
}
