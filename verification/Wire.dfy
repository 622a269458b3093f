/** The byte formats of src/protocol.h: size_t fields, the three headers and the output-file record.
    Lengths are 64-bit little-endian (LP64); the padding bytes of the line header are arbitrary. */
module Wire {
  const LIMIT: int := 0x1_0000_0000_0000_0000

  type Byte = b: int | 0 <= b < 256

  /** A byte string whose length fits a size_t. */
  type Blob = s: seq<Byte> | |s| < LIMIT

  /** The bytes of a C string without its terminator: no NUL, so strlen is the whole length. */
  type CString = s: seq<Byte> | |s| < LIMIT && 0 !in s

  /** The bytes between the bool and the size_t of mr_line_header_t. */
  type Padding = s: seq<Byte> | |s| == 7 witness [0, 0, 0, 0, 0, 0, 0]

  // ---------------------------------------------------------------- size_t

  function LittleEndian(n: nat, k: nat): (bs: seq<Byte>)
    ensures |bs| == k
  {
    if k == 0 then [] else [n % 256] + LittleEndian(n / 256, k - 1)
  }

  function FromLittleEndian(bs: seq<Byte>): nat
  {
    if bs == [] then 0 else bs[0] + 256 * FromLittleEndian(bs[1..])
  }

  ghost function Pow256(k: nat): nat
  {
    if k == 0 then 1 else 256 * Pow256(k - 1)
  }

  lemma {:induction false} LittleEndianRoundTrip(n: nat, k: nat)
    requires n < Pow256(k)
    ensures FromLittleEndian(LittleEndian(n, k)) == n
  {
    if k != 0 {
      LittleEndianRoundTrip(n / 256, k - 1);
    }
  }

  lemma {:induction false} FromLittleEndianRange(bs: seq<Byte>)
    ensures FromLittleEndian(bs) < Pow256(|bs|)
  {
    if bs != [] {
      FromLittleEndianRange(bs[1..]);
    }
  }

  function Size(n: nat): (bs: seq<Byte>)
    ensures |bs| == 8
  {
    LittleEndian(n, 8)
  }

  function FromSize(bs: seq<Byte>): (n: nat)
    requires |bs| == 8
    ensures n < LIMIT
  {
    FromLittleEndianRange(bs);
    FromLittleEndian(bs)
  }

  lemma SizeRoundTrip(n: nat)
    requires n < LIMIT
    ensures FromSize(Size(n)) == n
  {
    assert Pow256(8) == LIMIT;
    LittleEndianRoundTrip(n, 8);
  }

  /** What a C string function sees of a NUL-terminated buffer. */
  function UpToNul(s: seq<Byte>): (r: seq<Byte>)
    ensures |r| <= |s| && 0 !in r && r <= s
    ensures 0 !in s ==> r == s
    ensures |r| < |s| ==> s[|r|] == 0
  {
    if s == [] || s[0] == 0 then [] else [s[0]] + UpToNul(s[1..])
  }

  // ---------------------------------------------------------------- units

  /** A token with its value or result: what the mapper and the reducer emit. */
  datatype Record = Record(token: CString, payload: Blob)

  /** One message: a file name, a line, an end-of-file mark or a record. */
  datatype Unit =
    | Name(name: Blob)
    | Text(pad: Padding, text: Blob)
    | Eof(pad: Padding)
    | Rec(rec: Record)

  /** The header a receiver expects next. */
  datatype Kind = NameKind | LineKind | RecordKind

  function KindOf(u: Unit): Kind
  {
    match u
    case Name(_) => NameKind
    case Text(_, _) => LineKind
    case Eof(_) => LineKind
    case Rec(_) => RecordKind
  }

  function HeaderLength(k: Kind): nat
  {
    if k.NameKind? then 8 else 16
  }

  function Header(u: Unit): (h: seq<Byte>)
    ensures |h| == HeaderLength(KindOf(u))
  {
    match u
    case Name(name) => Size(|name|)
    case Text(pad, text) => [0] + pad + Size(|text|)
    case Eof(pad) => [1] + pad + Size(0)
    case Rec(r) => Size(|r.token|) + Size(|r.payload|)
  }

  function FirstField(u: Unit): seq<Byte>
  {
    match u
    case Name(name) => name
    case Text(_, text) => text
    case Eof(_) => []
    case Rec(r) => r.token
  }

  function SecondField(u: Unit): seq<Byte>
  {
    if u.Rec? then u.rec.payload else []
  }

  /** The bytes a sender writes for one unit. */
  function Encode(u: Unit): seq<Byte>
  {
    Header(u) + FirstField(u) + SecondField(u)
  }

  /** The lengths of the two fields that follow a header. */
  function FieldLengths(k: Kind, h: seq<Byte>): (nat, nat)
    requires |h| >= HeaderLength(k)
  {
    match k
    case NameKind => (FromSize(h[..8]), 0)
    case LineKind => if h[0] != 0 then (0, 0) else (FromSize(h[8..16]), 0)
    case RecordKind => (FromSize(h[..8]), FromSize(h[8..16]))
  }

  /** How many bytes the current read_n call still asks for, given what this unit has delivered. */
  function Wanted(k: Kind, buf: seq<Byte>): nat
  {
    var h := HeaderLength(k);
    if |buf| < h then h - |buf|
    else
      var (a, b) := FieldLengths(k, buf);
      if |buf| < h + a then h + a - |buf|
      else if |buf| < h + a + b then h + a + b - |buf|
      else 0
  }

  predicate Complete(k: Kind, buf: seq<Byte>)
  {
    && |buf| >= HeaderLength(k)
    && var (a, b) := FieldLengths(k, buf); |buf| == HeaderLength(k) + a + b
  }

  function Decode(k: Kind, buf: seq<Byte>): Unit
    requires Complete(k, buf)
  {
    match k
    case NameKind => Name(buf[8..])
    case LineKind => if buf[0] != 0 then Eof(buf[1..8]) else Text(buf[1..8], buf[16..])
    case RecordKind =>
      var a := FieldLengths(RecordKind, buf).0;
      Rec(Record(UpToNul(buf[16..16 + a]), buf[16 + a..]))
  }

  /** A header announces exactly the fields that follow it. */
  lemma HeaderAnnounces(u: Unit, rest: seq<Byte>)
    ensures FieldLengths(KindOf(u), Header(u) + rest) == (|FirstField(u)|, |SecondField(u)|)
  {
    var h := Header(u) + rest;
    match u
    case Name(name) =>
      assert h[..8] == Size(|name|);
      SizeRoundTrip(|name|);
    case Text(pad, text) =>
      assert h[8..16] == Size(|text|);
      SizeRoundTrip(|text|);
    case Eof(pad) =>
    case Rec(r) =>
      assert h[..8] == Size(|r.token|) && h[8..16] == Size(|r.payload|);
      SizeRoundTrip(|r.token|);
      SizeRoundTrip(|r.payload|);
  }

  lemma DecodeInvertsEncode(u: Unit)
    ensures Complete(KindOf(u), Encode(u)) && Decode(KindOf(u), Encode(u)) == u
  {
    hide FieldLengths, Size, FromSize;
    var e := Encode(u);
    HeaderAnnounces(u, FirstField(u) + SecondField(u));
    assert e == Header(u) + (FirstField(u) + SecondField(u));
    match u
    case Name(name) => assert e[8..] == name;
    case Text(pad, text) => assert e[1..8] == pad && e[16..] == text;
    case Eof(pad) => assert e[1..8] == pad;
    case Rec(r) => assert e[16..16 + |r.token|] == r.token && e[16 + |r.token|..] == r.payload;
  }

  /** Where the part of a unit ends that its n-th byte belongs to: the header, the first field or the second. Each is
      the target of one read_n call. */
  ghost function PartEnd(u: Unit, n: nat): nat
  {
    var header := if u.Name? then 8 else 16;
    var first :=
      match u
      case Name(name) => |name|
      case Text(_, text) => |text|
      case Eof(_) => 0
      case Rec(r) => |r.token|;
    var second := if u.Rec? then |u.rec.payload| else 0;
    if n < header then header
    else if n < header + first then header + first
    else header + first + second
  }

  /** A receiver that holds a prefix of an encoded unit recognises the end of the unit exactly, and asks for what is
      left of the part it is in, never for a byte beyond the unit: this is why the stream stays in step. */
  lemma PrefixKnowsItsEnd(u: Unit, buf: seq<Byte>)
    requires buf <= Encode(u)
    ensures |buf| + Wanted(KindOf(u), buf) == PartEnd(u, |buf|)
    ensures Complete(KindOf(u), buf) <==> buf == Encode(u)
    ensures Wanted(KindOf(u), buf) <= |Encode(u)| - |buf|
    ensures buf != Encode(u) ==> Wanted(KindOf(u), buf) > 0
  {
    var h := HeaderLength(KindOf(u));
    DecodeInvertsEncode(u);
    if |buf| >= h {
      var rest := buf[h..];
      assert buf == Header(u) + rest;
      HeaderAnnounces(u, rest);
    }
  }

  // ---------------------------------------------------------------- streams

  ghost function Stream(us: seq<Unit>): seq<Byte>
  {
    if us == [] then [] else Encode(us[0]) + Stream(us[1..])
  }

  lemma {:induction false} StreamAppend(a: seq<Unit>, b: seq<Unit>)
    ensures Stream(a + b) == Stream(a) + Stream(b)
  {
    if a == [] {
      assert a + b == b;
    } else {
      assert (a + b)[0] == a[0] && (a + b)[1..] == a[1..] + b;
      StreamAppend(a[1..], b);
    }
  }

  lemma StreamSnoc(us: seq<Unit>, u: Unit)
    ensures Stream(us + [u]) == Stream(us) + Encode(u)
  {
    StreamAppend(us, [u]);
    assert Stream([u]) == Encode(u) + Stream([u][1..]);
  }

  /** A receiver has read the first `rd` bytes of `hist`: the units `got` and then `buf`, an unfinished unit.
      `all` is what the sender has committed to send. */
  ghost predicate InStep(hist: seq<Byte>, rd: nat, got: seq<Unit>, buf: seq<Byte>, all: seq<Unit>)
  {
    && rd <= |hist|
    && hist[..rd] == Stream(got) + buf
    && hist <= Stream(all)
    && got <= all
    && (buf == [] || (|got| < |all| && buf <= Encode(all[|got|]) && buf != Encode(all[|got|])))
  }

  lemma StreamSplit(all: seq<Unit>, n: nat)
    requires n < |all|
    ensures Stream(all) == Stream(all[..n]) + Encode(all[n]) + Stream(all[n + 1..])
  {
    assert all == all[..n] + all[n..];
    StreamAppend(all[..n], all[n..]);
    assert all[n..][1..] == all[n + 1..];
  }

  lemma PrefixWithin(before: seq<Byte>, e: seq<Byte>, after: seq<Byte>, x: seq<Byte>)
    requires before + x <= before + e + after && |x| <= |e|
    ensures x <= e
  {
    forall i | 0 <= i < |x| ensures x[i] == e[i] {
      assert (before + x)[|before| + i] == (before + e + after)[|before| + i];
    }
  }

  /** One partial read of at most the wanted number of bytes keeps the receiver in step, whatever the chunk;
      if it completes a unit, that is the very unit the sender sent next. */
  lemma ReadKeepsStep(hist: seq<Byte>, rd: nat, got: seq<Unit>, buf: seq<Byte>, all: seq<Unit>, kind: Kind, k: nat)
    requires InStep(hist, rd, got, buf, all)
    requires |got| < |all| ==> KindOf(all[|got|]) == kind
    requires 0 < k <= Wanted(kind, buf) && rd + k <= |hist|
    ensures |got| < |all|
    ensures var buf' := buf + hist[rd..rd + k];
            if Complete(kind, buf')
            then Decode(kind, buf') == all[|got|] && InStep(hist, rd + k, got + [all[|got|]], [], all)
            else InStep(hist, rd + k, got, buf', all)
  {
    hide Encode, Decode, Complete, Wanted, Stream;
    var n := |got|;
    var buf' := buf + hist[rd..rd + k];
    assert got == all[..n];
    assert hist[..rd + k] == Stream(got) + buf';
    assert all[..|all|] == all;
    var u := all[n];
    StreamSplit(all, n);
    PrefixKnowsItsEnd(u, buf);
    PrefixWithin(Stream(got), Encode(u), Stream(all[n + 1..]), buf');
    PrefixKnowsItsEnd(u, buf');
    if buf' == Encode(u) {
      DecodeInvertsEncode(u);
      StreamSnoc(got, u);
    }
  }

  /** At end of stream a receiver in step has received everything and holds no torn unit. */
  lemma EndOfStream(hist: seq<Byte>, got: seq<Unit>, buf: seq<Byte>, all: seq<Unit>)
    requires InStep(hist, |hist|, got, buf, all) && hist == Stream(all)
    ensures buf == [] && got == all
  {
    var n := |got|;
    assert got == all[..n] && hist[..|hist|] == hist;
    if n < |all| {
      StreamSplit(all, n);
    } else {
      assert got == all;
    }
  }
}
