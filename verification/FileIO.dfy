/** File descriptors with arbitrary partial reads and writes, and the two loops that hide them
    (src/protocol.c:15-53). */
module FileIO {
  import opened Wire

  /** The read end of a pipe: `rest` is every byte still to come before end of stream. */
  class ReadEnd {
    var rest: seq<Byte>

    constructor (bytes: seq<Byte>)
      ensures rest == bytes
    {
      rest := bytes;
    }

    /** read(2): between one byte and all that was asked for, as the kernel likes; 0 only at end of stream. */
    method Read(buffer: array<Byte>, offset: nat, n: nat) returns (k: nat)
      requires offset + n <= buffer.Length && n > 0
      modifies this, buffer
      ensures k <= n && k <= |old(rest)| && (k == 0 <==> old(rest) == [])
      ensures rest == old(rest)[k..]
      ensures buffer[..] == old(buffer[..offset]) + old(rest)[..k] + old(buffer[offset + k..])
    {
      if rest == [] {
        k := 0;
      } else {
        k :| 0 < k <= n && k <= |rest|;
        var chunk := rest[..k];
        forall i | 0 <= i < k {
          buffer[offset + i] := chunk[i];
        }
        rest := rest[k..];
      }
    }
  }

  /** The write end of a pipe: `sent` is every byte written so far. */
  class WriteEnd {
    var sent: seq<Byte>

    constructor ()
      ensures sent == []
    {
      sent := [];
    }

    /** write(2): at least one byte of what was given. */
    method Write(data: seq<Byte>) returns (k: nat)
      requires data != []
      modifies this
      ensures 0 < k <= |data| && sent == old(sent) + data[..k]
    {
      k :| 0 < k <= |data|;
      sent := sent + data[..k];
    }
  }

  /** read_n: fills the buffer unless the stream ends first, however the bytes are cut up. */
  method ReadN(fd: ReadEnd, buffer: array<Byte>, n: nat) returns (total: nat)
    requires n <= buffer.Length
    modifies fd, buffer
    ensures total == if n <= |old(fd.rest)| then n else |old(fd.rest)|
    ensures fd.rest == old(fd.rest)[total..]
    ensures buffer[..total] == old(fd.rest)[..total] && buffer[total..] == old(buffer[total..])
  {
    ghost var all := fd.rest;
    total := 0;
    while total < n
      invariant total <= n && total <= |all| && fd.rest == all[total..]
      invariant buffer[..total] == all[..total] && buffer[total..] == old(buffer[..])[total..]
    {
      var k := fd.Read(buffer, total, n - total);
      if k == 0 {
        return;
      }
      assert all[total..][..k] == all[total..total + k];
      total := total + k;
    }
  }

  /** write_n: everything is written, in order, however the writes are cut up. */
  method WriteN(fd: WriteEnd, data: seq<Byte>)
    modifies fd
    ensures fd.sent == old(fd.sent) + data
  {
    var total := 0;
    while total < |data|
      invariant total <= |data| && fd.sent == old(fd.sent) + data[..total]
    {
      var k := fd.Write(data[total..]);
      assert data[..total] + data[total..][..k] == data[..total + k];
      total := total + k;
    }
    assert data[..total] == data;
  }
}
