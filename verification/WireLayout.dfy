/** The bytes of the messages and of the output file, field by field (src/protocol.h:8-26, src/protocol.c:316-394). */
module WireLayout {
  import opened Wire
  import opened Output

  /** A size_t of 64 bits, lowest byte first. */
  ghost predicate IsSize(bs: seq<int>, n: nat)
  {
    && |bs| == 8
    && n == bs[0] + 0x100 * bs[1] + 0x1_0000 * bs[2] + 0x100_0000 * bs[3] + 0x1_0000_0000 * bs[4]
          + 0x100_0000_0000 * bs[5] + 0x1_0000_0000_0000 * bs[6] + 0x100_0000_0000_0000 * bs[7]
  }

  lemma ReadSize(bs: seq<Byte>)
    requires |bs| == 8
    ensures IsSize(bs, FromSize(bs))
  {
    var b1, b2, b3, b4 := bs[1..], bs[2..], bs[3..], bs[4..];
    var b5, b6, b7 := bs[5..], bs[6..], bs[7..];
    assert FromSize(bs) == bs[0] + 256 * FromLittleEndian(b1);
    assert b1[1..] == b2 && b2[1..] == b3 && b3[1..] == b4 && b4[1..] == b5 && b5[1..] == b6 && b6[1..] == b7;
    assert FromLittleEndian(b7) == bs[7] by { assert b7[1..] == []; }
    assert FromLittleEndian(b6) == bs[6] + 256 * FromLittleEndian(b7);
    assert FromLittleEndian(b5) == bs[5] + 256 * FromLittleEndian(b6);
    assert FromLittleEndian(b4) == bs[4] + 256 * FromLittleEndian(b5);
    assert FromLittleEndian(b3) == bs[3] + 256 * FromLittleEndian(b4);
    assert FromLittleEndian(b2) == bs[2] + 256 * FromLittleEndian(b3);
    assert FromLittleEndian(b1) == bs[1] + 256 * FromLittleEndian(b2);
  }

  lemma WrittenSize(n: nat)
    requires n < LIMIT
    ensures IsSize(Size(n), n)
  {
    SizeRoundTrip(n);
    ReadSize(Size(n));
  }

  /** The bytes of a message: lengths first, then the fields; the end mark is a one and a line's a zero. */
  ghost predicate OnWire(u: Unit, bs: seq<Byte>)
  {
    match u
    case Name(name) => |bs| == 8 + |name| && IsSize(bs[..8], |name|) && bs[8..] == name
    case Text(pad, text) =>
      && |bs| == 16 + |text| && bs[0] == 0 && bs[1..8] == pad && IsSize(bs[8..16], |text|) && bs[16..] == text
    case Eof(pad) => |bs| == 16 && bs[0] == 1 && bs[1..8] == pad && IsSize(bs[8..16], 0)
    case Rec(r) =>
      && |bs| == 16 + |r.token| + |r.payload| && IsSize(bs[..8], |r.token|) && IsSize(bs[8..16], |r.payload|)
      && bs[16..16 + |r.token|] == r.token && bs[16 + |r.token|..] == r.payload
  }

  lemma TextOnWire(pad: Padding, text: Blob)
    ensures OnWire(Text(pad, text), Encode(Text(pad, text)))
  {
    WrittenSize(|text|);
    LineParts(0, pad, Size(|text|), text);
    assert Encode(Text(pad, text)) == [0] + pad + Size(|text|) + text + [];
    hide Size, IsSize, Encode;
  }

  lemma LineParts(eof: Byte, pad: Padding, size: seq<Byte>, text: seq<Byte>)
    requires |size| == 8
    ensures var bs := [eof] + pad + size + text + [];
            |bs| == 16 + |text| && bs[0] == eof && bs[1..8] == pad && bs[8..16] == size && bs[16..] == text
  {
    var header := [eof] + pad + size;
    assert header[0] == eof && header[1..8] == pad && header[8..16] == size;
    var bs := header + text + [];
    assert bs == header + text;
    assert bs[..16] == header && bs[16..] == text;
    assert bs[0] == bs[..16][0] && bs[1..8] == bs[..16][1..8] && bs[8..16] == bs[..16][8..16];
  }

  lemma RecordOnWire(r: Record)
    ensures OnWire(Rec(r), Encode(Rec(r)))
  {
    hide Size, IsSize;
    var bs := Encode(Rec(r));
    WrittenSize(|r.token|);
    WrittenSize(|r.payload|);
    assert bs[..8] == Size(|r.token|) && bs[8..16] == Size(|r.payload|);
    assert bs[16..16 + |r.token|] == r.token && bs[16 + |r.token|..] == r.payload;
  }

  lemma NameOnWire(name: Blob)
    ensures OnWire(Name(name), Encode(Name(name)))
  {
    hide Size, IsSize;
    var bs := Encode(Name(name));
    WrittenSize(|name|);
    assert bs[..8] == Size(|name|) && bs[8..] == name;
  }

  lemma EofOnWire(pad: Padding)
    ensures OnWire(Eof(pad), Encode(Eof(pad)))
  {
    hide Size, IsSize;
    var bs := Encode(Eof(pad));
    WrittenSize(0);
    assert bs[1..8] == pad && bs[8..16] == Size(0);
  }

  /** What the senders write for a message is that message's layout. */
  lemma EncodedOnWire(u: Unit)
    ensures OnWire(u, Encode(u))
  {
    hide Encode, OnWire;
    match u
    case Name(name) => NameOnWire(name);
    case Text(pad, text) => TextOnWire(pad, text);
    case Eof(pad) => EofOnWire(pad);
    case Rec(r) => RecordOnWire(r);
  }

  /** The bytes of a record in the output file: each length before its field. */
  ghost predicate InFile(r: Record, bs: seq<Byte>)
  {
    var n := |r.token|;
    && |bs| == 16 + n + |r.payload| && IsSize(bs[..8], n) && bs[8..8 + n] == r.token
    && IsSize(bs[8 + n..16 + n], |r.payload|) && bs[16 + n..] == r.payload
  }

  lemma WrittenInFile(r: Record)
    ensures InFile(r, FileRecord(r))
  {
    hide Size, IsSize;
    var n, bs := |r.token|, FileRecord(r);
    WrittenSize(n);
    WrittenSize(|r.payload|);
    assert bs[..8] == Size(n) && bs[8..8 + n] == r.token;
    assert bs[8 + n..16 + n] == Size(|r.payload|) && bs[16 + n..] == r.payload;
  }
}
