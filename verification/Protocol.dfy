/** The senders and receivers of src/protocol.c as they loop over partial reads and writes. */
module Protocol {
  import opened Collections
  import opened Wire
  import opened Lines
  import opened Transcript
  import opened FileIO
  import opened Output

  // ---------------------------------------------------------------- records

  lemma EncodedParts(before: seq<Byte>, u: Unit)
    ensures before + Header(u) + FirstField(u) + SecondField(u) == before + Encode(u)
  {
    var h, a, b := Header(u), FirstField(u), SecondField(u);
    assert Encode(u) == h + a + b;
    hide *;
    assert before + h + a + b == before + (h + a + b);
  }

  /** send_pair_to_reducer_fd, and send_result_to_main_fd, which writes the same bytes. */
  method SendRecord(fd: WriteEnd, token: CString, payload: Blob)
    modifies fd
    ensures fd.sent == old(fd.sent) + Encode(Rec(Record(token, payload)))
  {
    hide Encode, Size;
    EncodedParts(fd.sent, Rec(Record(token, payload)));
    WriteN(fd, Size(|token|) + Size(|payload|));
    if |token| > 0 {
      WriteN(fd, token);
    }
    if |payload| > 0 {
      WriteN(fd, payload);
    }
  }

  /** malloc and read_n of one field. */
  method ReadField(fd: ReadEnd, n: nat) returns (field: seq<Byte>)
    requires n <= |fd.rest|
    modifies fd
    ensures field == old(fd.rest)[..n] && fd.rest == old(fd.rest)[n..]
  {
    var buffer := new Byte[n];
    if n > 0 {
      var k := ReadN(fd, buffer, n);
    }
    field := buffer[..n];
  }

  lemma StreamHead(u: Unit, us: seq<Unit>)
    ensures Stream([u] + us) == Header(u) + (FirstField(u) + (SecondField(u) + Stream(us)))
  {
    assert ([u] + us)[1..] == us;
    Assoc(Header(u) + FirstField(u), SecondField(u), Stream(us));
    Assoc(Header(u), FirstField(u), SecondField(u) + Stream(us));
  }

  /** receive_pair_from_mapper_fd on a stream written by the matching sender: None at end of stream, otherwise the next
      record, and exactly its bytes are consumed. */
  method ReceiveRecord(fd: ReadEnd, ghost us: seq<Unit>) returns (r: Option<Record>)
    requires fd.rest == Stream(us) && forall i :: 0 <= i < |us| ==> us[i].Rec?
    modifies fd
    ensures us == [] ==> r.None? && fd.rest == []
    ensures us != [] ==> r == Some(us[0].rec) && fd.rest == Stream(us[1..])
  {
    var header := new Byte[16];
    if us != [] {
      StreamHead(us[0], us[1..]);
      assert [us[0]] + us[1..] == us;
      HeaderAnnounces(us[0], []);
      assert Header(us[0]) + [] == Header(us[0]);
    }
    var n := ReadN(fd, header, 16);
    if n == 0 {
      return None;
    }
    var h := header[..16];
    assert h == Header(us[0]);
    var (a, b) := FieldLengths(RecordKind, h);
    var token := ReadField(fd, a);
    var payload := ReadField(fd, b);
    r := Some(Record(UpToNul(token), payload));
  }

  lemma OneMoreRecord(us: seq<Unit>, n: nat)
    requires n < |us| && us[n].Rec?
    ensures us[n..] != [] && us[n..][0] == us[n] && us[n..][1..] == us[n + 1..]
    ensures RecordsIn(us[..n + 1]) == RecordsIn(us[..n]) + [us[n].rec]
  {
    assert us[..n + 1] == us[..n] + [us[n]];
    RecordsInSnoc(us[..n], us[n]);
  }

  lemma FileRecordParts(before: seq<Byte>, r: Record)
    ensures before + Size(|r.token|) + r.token + Size(|r.payload|) + r.payload == before + FileRecord(r)
  {
    var a, b, c, d := Size(|r.token|), r.token, Size(|r.payload|), r.payload;
    assert FileRecord(r) == a + b + c + d;
    hide *;
    assert before + a + b + c + d == before + (a + b + c + d);
  }

  /** receive_output_from_reducer: the results, transcoded record by record into the file form. */
  method ReceiveOutput(fd: ReadEnd, ghost us: seq<Unit>) returns (file: seq<Byte>)
    requires fd.rest == Stream(us) && forall i :: 0 <= i < |us| ==> us[i].Rec?
    modifies fd
    ensures file == FileOf(RecordsIn(us)) && fd.rest == []
    ensures Decoded(file) == RecordsIn(us)
  {
    hide Stream, RecordsIn, FileOf, FileRecord, Decoded, Size;
    assert us[..0] == [] && FileOf(RecordsIn([])) == [] by { NoRecords(); }
    assert us[0..] == us;
    file := [];
    ghost var done := 0;
    while true
      invariant done <= |us| && fd.rest == Stream(us[done..])
      invariant file == FileOf(RecordsIn(us[..done]))
      decreases |us| - done
    {
      var r := ReceiveRecord(fd, us[done..]);
      if r.None? {
        break;
      }
      OneMoreRecord(us, done);
      FileOfSnoc(RecordsIn(us[..done]), us[done].rec);
      FileRecordParts(file, r.value);
      file := file + Size(|r.value.token|) + r.value.token + Size(|r.value.payload|) + r.value.payload;
      done := done + 1;
    }
    assert us[..done] == us;
    FileRoundTrip(RecordsIn(us));
  }

  lemma NoRecords()
    ensures RecordsIn([]) == [] && FileOf(RecordsIn([])) == [] && Stream([]) == []
  {
  }

  // ---------------------------------------------------------------- files

  /** What the padding bytes of a header happen to be. */
  method AnyPadding() returns (pad: Padding)
  {
    pad := *;
  }

  method SendName(fd: WriteEnd, name: CString)
    modifies fd
    ensures fd.sent == old(fd.sent) + Encode(Name(name))
  {
    hide Encode, Size;
    EncodedParts(fd.sent, Name(name));
    WriteN(fd, Size(|name|));
    WriteN(fd, name);
  }

  method SendLine(fd: WriteEnd, pad: Padding, line: Blob)
    modifies fd
    ensures fd.sent == old(fd.sent) + Encode(Text(pad, line))
  {
    hide Encode, Size;
    EncodedParts(fd.sent, Text(pad, line));
    WriteN(fd, [0] + pad + Size(|line|));
    if |line| > 0 {
      WriteN(fd, line);
    }
  }

  method SendEof(fd: WriteEnd, pad: Padding)
    modifies fd
    ensures fd.sent == old(fd.sent) + Encode(Eof(pad))
  {
    hide Encode, Size;
    EncodedParts(fd.sent, Eof(pad));
    WriteN(fd, [1] + pad + Size(0));
  }

  lemma UnpaddedAppend(us: seq<Unit>, vs: seq<Unit>, us': seq<Unit>, vs': seq<Unit>)
    requires Unpadded(us, vs) && Unpadded(us', vs')
    ensures Unpadded(us + us', vs + vs')
  {
  }

  lemma TextsSnoc(ls: seq<Blob>, l: Blob)
    ensures Texts(ls + [l]) == Texts(ls) + [Text(ZERO_PADDING, l)]
  {
    assert (ls + [l])[..|ls|] == ls;
  }

  lemma SplitMore(lines: seq<Blob>, rest: Blob)
    requires rest != []
    ensures lines + Split(rest) == lines + [rest[..LineLength(rest)]] + Split(AfterLine(rest))
  {
    SplitStep(rest);
    hide Split, LineLength, AfterLine;
  }

  lemma StreamOneMore(before: seq<Byte>, us: seq<Unit>, u: Unit)
    ensures before + Stream(us) + Encode(u) == before + Stream(us + [u])
  {
    StreamSnoc(us, u);
    hide Stream, Encode;
  }

  lemma NothingToSend(before: seq<Byte>)
    ensures before + Stream([]) == before && Texts([]) == [] && Split([]) == [] && Unpadded([], [])
  {
  }

  /** The getline loop. */
  method SendLines(fd: WriteEnd, content: Blob) returns (ghost us: seq<Unit>)
    modifies fd
    ensures fd.sent == old(fd.sent) + Stream(us) && Unpadded(us, Texts(Split(content)))
  {
    hide Stream, Encode, Split, Texts, LineLength, AfterLine, Unpadded;
    us := [];
    ghost var lines: seq<Blob> := [];
    var rest: Blob := content;
    NothingToSend(fd.sent);
    assert [] + Split(content) == Split(content);
    while rest != []
      invariant fd.sent == old(fd.sent) + Stream(us)
      invariant Split(content) == lines + Split(rest) && Unpadded(us, Texts(lines))
      decreases |rest|
    {
      var line: Blob := rest[..LineLength(rest)];
      var pad := AnyPadding();
      SendLine(fd, pad, line);
      StreamOneMore(old(fd.sent), us, Text(pad, line));
      SplitMore(lines, rest);
      TextsSnoc(lines, line);
      assert Unpadded([Text(pad, line)], [Text(ZERO_PADDING, line)]) by { PaddingOnly(pad, line); }
      UnpaddedAppend(us, Texts(lines), [Text(pad, line)], [Text(ZERO_PADDING, line)]);
      us := us + [Text(pad, line)];
      lines := lines + [line];
      rest := AfterLine(rest);
    }
    assert lines + Split([]) == lines;
  }

  lemma PaddingOnly(pad: Padding, line: Blob)
    ensures Unpadded([Text(pad, line)], [Text(ZERO_PADDING, line)]) && Unpadded([Eof(pad)], [Eof(ZERO_PADDING)])
  {
  }

  /** send_file_to_mapper: name, lines, end mark. */
  method SendFile(fd: WriteEnd, f: File) returns (ghost us: seq<Unit>)
    modifies fd
    ensures fd.sent == old(fd.sent) + Stream(us) && IsFileOnWire(us, f)
    ensures Unpadded(us, FileUnits(f))
  {
    hide Stream, Encode, Split, Texts;
    SendName(fd, f.name);
    ghost var lines := SendLines(fd, f.content);
    var pad := AnyPadding();
    SendEof(fd, pad);
    StreamOfThree(old(fd.sent), Name(f.name), lines, Eof(pad));
    us := [Name(f.name)] + lines + [Eof(pad)];
    FileOnWire(us, f);
  }

  lemma StreamOfThree(before: seq<Byte>, a: Unit, us: seq<Unit>, z: Unit)
    ensures before + Encode(a) + Stream(us) + Encode(z) == before + Stream([a] + us + [z])
  {
    StreamSnoc([a] + us, z);
    assert ([a] + us)[1..] == us;
    assert Stream([a] + us) == Encode(a) + Stream(us);
    hide Stream, Encode;
    Assoc(before, Encode(a), Stream(us));
    Assoc(before, Encode(a) + Stream(us), Encode(z));
  }

  lemma UnitsSnoc(fs: seq<File>, k: nat)
    requires k < |fs|
    ensures Units(fs[..k + 1]) == Units(fs[..k]) + FileUnits(fs[k])
  {
    assert fs[..k + 1][..k] == fs[..k];
  }

  lemma StreamMore(before: seq<Byte>, us: seq<Unit>, more: seq<Unit>)
    ensures before + Stream(us) + Stream(more) == before + Stream(us + more)
  {
    StreamAppend(us, more);
    hide Stream, Encode;
  }

  /** send_files_in_directory_to_mapper, over the files already listed. */
  method SendFiles(fd: WriteEnd, files: seq<File>) returns (ghost us: seq<Unit>)
    modifies fd
    ensures fd.sent == old(fd.sent) + Stream(us) && AreFilesOnWire(us, files)
    ensures Sends(us, files)
  {
    hide Stream, Units, FileUnits, Unpadded;
    us := [];
    NothingToSend(fd.sent);
    assert files[..0] == [] && Units([]) == [] by { NoUnits(); }
    var i := 0;
    while i < |files|
      invariant i <= |files| && fd.sent == old(fd.sent) + Stream(us) && Unpadded(us, Units(files[..i]))
    {
      ghost var more := SendFile(fd, files[i]);
      StreamMore(old(fd.sent), us, more);
      UnitsSnoc(files, i);
      UnpaddedAppend(us, Units(files[..i]), more, FileUnits(files[i]));
      us := us + more;
      i := i + 1;
    }
    assert files[..i] == files;
    FilesOnWire(us, files);
  }

  lemma NoUnits()
    ensures Units([]) == []
  {
  }

  lemma LinesCons(c: Cursor, u: Unit, us: seq<Unit>)
    ensures CursorAfter(c, [u] + us) == CursorAfter(Advance(c, u), us)
    ensures LinesFrom(c, [u] + us) == Delivered(c, u) + LinesFrom(Advance(c, u), us)
  {
    Append(c, [u], us);
    assert [u][..0] == [];
  }

  /** Each unit comes when the receiver, starting at c, expects its kind. */
  ghost predicate InOrder(c: Cursor, us: seq<Unit>)
    decreases |us|
  {
    us == [] || (KindOf(us[0]) == KindFor(c) && InOrder(Advance(c, us[0]), us[1..]))
  }

  lemma {:induction false} ExpectedInOrder(us: seq<Unit>, k: nat)
    requires Expected(us) && k <= |us|
    ensures InOrder(CursorAfter(Between, us[..k]), us[k..])
    decreases |us| - k
  {
    if k < |us| {
      ExpectedInOrder(us, k + 1);
      assert us[..k + 1] == us[..k] + [us[k]];
      Snoc(Between, us[..k], us[k]);
      assert us[k..][1..] == us[k + 1..];
    }
  }

  /** mr_main_receiver_t. */
  class LineReceiver {
    var fileName: Blob
    var lineNumber: nat
    var fileFinished: bool

    ghost function Cur(): Cursor
      reads this
    {
      if fileFinished then Between else Inside(fileName, lineNumber)
    }

    /** mr_main_receiver_init. */
    constructor ()
      ensures Cur() == Between
    {
      fileName := [];
      lineNumber := 0;
      fileFinished := true;
    }

    /** The head of the stream, as the next call will see it. */
    lemma NextUnit(us: seq<Unit>)
      requires us != []
      ensures Stream(us) == Header(us[0]) + (FirstField(us[0]) + (SecondField(us[0]) + Stream(us[1..])))
      ensures FieldLengths(KindOf(us[0]), Header(us[0])) == (|FirstField(us[0])|, |SecondField(us[0])|)
      ensures CursorAfter(Cur(), us) == CursorAfter(Advance(Cur(), us[0]), us[1..])
      ensures LinesFrom(Cur(), us) == Delivered(Cur(), us[0]) + LinesFrom(Advance(Cur(), us[0]), us[1..])
    {
      assert [us[0]] + us[1..] == us;
      StreamHead(us[0], us[1..]);
      LinesCons(Cur(), us[0], us[1..]);
      HeaderAnnounces(us[0], []);
      assert Header(us[0]) + [] == Header(us[0]);
    }

    /** Between files: the name of the next one, or end of stream. */
    method StartFile(fd: ReadEnd, ghost us: seq<Unit>) returns (eof: bool)
      requires fileFinished && fd.rest == Stream(us) && InOrder(Between, us)
      modifies this, fd
      ensures eof <==> us == []
      ensures eof ==> fd.rest == [] && Cur() == Between
      ensures !eof ==> fd.rest == Stream(us[1..]) && us[0].Name? && Cur() == Inside(us[0].name, 1)
    {
      hide Stream, LinesFrom, CursorAfter, FieldLengths, Size, FromSize;
      assert Stream([]) == [] by { NoRecords(); }
      if us != [] { NextUnit(us); }
      var header := new Byte[8];
      var n := ReadN(fd, header, 8);
      if n == 0 {
        return true;
      }
      var h := header[..8];
      assert h == Header(us[0]);
      fileName := ReadField(fd, FieldLengths(NameKind, h).0);
      lineNumber := 1;
      fileFinished := false;
      eof := false;
    }

    /** Inside a file: the next line, or the end of the file. */
    method NextLine(fd: ReadEnd, ghost us: seq<Unit>) returns (r: Option<FileLine>)
      requires !fileFinished && us != [] && fd.rest == Stream(us) && InOrder(Cur(), us)
      modifies this, fd
      ensures fd.rest == Stream(us[1..]) && Cur() == old(Advance(Cur(), us[0]))
      ensures old(Delivered(Cur(), us[0])) == if r.Some? then [r.value] else []
      ensures r.None? ==> fileFinished
    {
      hide Stream, LinesFrom, CursorAfter, FieldLengths, Size, FromSize;
      NextUnit(us);
      var header := new Byte[16];
      var n := ReadN(fd, header, 16);
      var h := header[..16];
      assert h == Header(us[0]);
      if h[0] != 0 {
        fileFinished := true;
        return None;
      }
      var text := ReadField(fd, FieldLengths(LineKind, h).0);
      r := Some(FileLine(fileName, lineNumber, text));
      lineNumber := lineNumber + 1;
    }

    /** receive_line_from_main_fd on a stream written by the matching sender: the next line if there is one, otherwise
        None with the stream fully consumed; `left` is what it leaves unread. Each turn consumes a header, so the loop
        ends. */
    method Receive(fd: ReadEnd, ghost us: seq<Unit>) returns (r: Option<FileLine>, ghost left: seq<Unit>)
      requires fd.rest == Stream(us) && InOrder(Cur(), us) && CursorAfter(Cur(), us) == Between
      modifies this, fd
      ensures fd.rest == Stream(left) && InOrder(Cur(), left) && CursorAfter(Cur(), left) == Between
      ensures r.None? ==> old(LinesFrom(Cur(), us)) == [] && left == []
      ensures r.Some? ==> old(LinesFrom(Cur(), us)) == [r.value] + LinesFrom(Cur(), left) && |left| < |us|
    {
      hide Stream, LinesFrom, CursorAfter, FieldLengths;
      NoRecords();
      NoLines(Between);
      left := us;
      while true
        invariant fd.rest == Stream(left) && InOrder(Cur(), left) && CursorAfter(Cur(), left) == Between
        invariant LinesFrom(Cur(), left) == old(LinesFrom(Cur(), us)) && |left| <= |us|
        decreases |left|
      {
        if left != [] { NextUnit(left); } else { NoLines(Cur()); }
        if fileFinished {
          var eof := StartFile(fd, left);
          if eof {
            return None, [];
          }
        } else {
          r := NextLine(fd, left);
          if r.Some? {
            left := left[1..];
            return;
          }
        }
        left := left[1..];
      }
    }
  }

  lemma NoLines(c: Cursor)
    ensures LinesFrom(c, []) == [] && CursorAfter(c, []) == c
  {
  }

  /** The line protocol end to end on bytes: whatever the padding and however reads are cut up, repeated receives
      return exactly the numbered lines of the files and then end of stream. */
  method ReceiveAllLines(fd: ReadEnd, ghost us: seq<Unit>, ghost files: seq<File>) returns (lines: seq<FileLine>)
    requires fd.rest == Stream(us) && AreFilesOnWire(us, files)
    modifies fd
    ensures AreLinesOfFiles(lines, files) && fd.rest == []
    ensures lines == AllLines(files)
  {
    hide AreFilesOnWire, AreLinesOfFiles, Stream, LinesFrom, AllLines, Sends;
    NoRecords();
    FilesOnWire(us, files);
    AllLinesAre(files);
    var receiver := new LineReceiver();
    Understood(us, files);
    ExpectedInOrder(us, 0);
    assert us[..0] == [] && us[0..] == us;
    lines := [];
    ghost var left := us;
    while true
      invariant fd.rest == Stream(left) && InOrder(receiver.Cur(), left) && CursorAfter(receiver.Cur(), left) == Between
      invariant lines + LinesFrom(receiver.Cur(), left) == AllLines(files)
      decreases |left|
    {
      ghost var was := left;
      var r;
      r, left := receiver.Receive(fd, left);
      if r.None? {
        break;
      }
      Assoc(lines, [r.value], LinesFrom(receiver.Cur(), left));
      lines := lines + [r.value];
    }
    NoLines(receiver.Cur());
    assert lines + [] == lines;
  }
}
