/** Input files as lines and as the units Main sends for them (src/protocol.c:65-159), and the receiver's reading of
    such units back into numbered lines (src/protocol.c:567-669). */
module Lines {
  import opened Wire

  const NEWLINE: Byte := 10

  const ZERO_PADDING: Padding := [0, 0, 0, 0, 0, 0, 0]

  datatype File = File(name: CString, content: Blob)

  /** mr_file_line_t. */
  datatype FileLine = FileLine(name: Blob, number: nat, text: Blob)

  // ---------------------------------------------------------------- splitting

  /** The length of what getline returns, not counting the newline. */
  function LineLength(s: seq<Byte>): (n: nat)
    ensures n <= |s|
    ensures NEWLINE !in s[..n]
    ensures n < |s| ==> s[n] == NEWLINE
  {
    if s == [] || s[0] == NEWLINE then 0
    else
      var n := LineLength(s[1..]);
      assert s[..n + 1] == [s[0]] + s[1..][..n];
      n + 1
  }

  /** What is left after getline has taken a line with its newline, if it has one. */
  function AfterLine(s: seq<Byte>): (r: seq<Byte>)
    ensures |r| <= |s| && (s != [] ==> |r| < |s|)
  {
    var n := LineLength(s);
    if n < |s| then s[n + 1..] else []
  }

  /** The lines that are sent: getline until it returns nothing, each without its newline. */
  function Split(s: Blob): seq<Blob>
    decreases |s|
  {
    if s == [] then [] else [s[..LineLength(s)]] + Split(AfterLine(s))
  }

  function Join(ls: seq<Blob>): seq<Byte>
  {
    if ls == [] then [] else if |ls| == 1 then ls[0] else ls[0] + [NEWLINE] + Join(ls[1..])
  }

  predicate EndsWithNewline(s: seq<Byte>)
  {
    s != [] && s[|s| - 1] == NEWLINE
  }

  lemma {:induction false} LinesHoldNoNewline(s: Blob)
    ensures forall l :: l in Split(s) ==> NEWLINE !in l
    decreases |s|
  {
    if s != [] {
      LinesHoldNoNewline(AfterLine(s));
    }
  }

  lemma JoinCons(l: Blob, ls: seq<Blob>)
    ensures Join([l] + ls) == if ls == [] then l else l + [NEWLINE] + Join(ls)
  {
    assert ([l] + ls)[1..] == ls;
  }

  function LastNewline(s: seq<Byte>): seq<Byte>
  {
    if EndsWithNewline(s) then [NEWLINE] else []
  }

  /** What one getline call does to the bytes. */
  lemma OneLine(s: Blob)
    requires s != []
    ensures LineLength(s) < |s| ==> s == s[..LineLength(s)] + [NEWLINE] + AfterLine(s)
    ensures LineLength(s) == |s| ==> s == s[..LineLength(s)] && AfterLine(s) == []
  {
    hide LineLength;
    CutAt(s, LineLength(s));
  }

  lemma CutAt<T>(s: seq<T>, n: nat)
    requires n <= |s|
    ensures s[..n] + s[n..] == s
    ensures n < |s| ==> s[..n] + [s[n]] + s[n + 1..] == s
  {
  }

  lemma OneLineEnd(s: Blob)
    requires s != []
    ensures LastNewline(s)
         == if LineLength(s) == |s| then [] else if AfterLine(s) == [] then [NEWLINE] else LastNewline(AfterLine(s))
  {
    hide LineLength;
    var n := LineLength(s);
    if n == |s| {
      assert s[..n][n - 1] == s[n - 1];
    } else {
      assert s[n + 1..] != [] ==> s[n + 1..][|s| - n - 2] == s[|s| - 1];
    }
  }

  lemma Reassociate(l: seq<Byte>, j: seq<Byte>, t: seq<Byte>)
    ensures l + [NEWLINE] + (j + t) == l + [NEWLINE] + j + t
  {
  }

  lemma {:induction false} JoinRebuilds(s: Blob)
    ensures s == Join(Split(s)) + LastNewline(s)
    decreases |s|
  {
    if s != [] {
      var l, r := s[..LineLength(s)], AfterLine(s);
      JoinRebuilds(r);
      OneLine(s);
      OneLineEnd(s);
      SplitStep(s);
      hide Split, LineLength, AfterLine, LastNewline, Join;
      Reassociate(l, Join(Split(r)), LastNewline(r));
    }
  }

  lemma SplitStep(s: Blob)
    requires s != []
    ensures Split(s) == [s[..LineLength(s)]] + Split(AfterLine(s))
    ensures Join(Split(s)) == if AfterLine(s) == [] then s[..LineLength(s)]
                              else s[..LineLength(s)] + [NEWLINE] + Join(Split(AfterLine(s)))
  {
    hide LineLength, AfterLine;
    JoinCons(s[..LineLength(s)], Split(AfterLine(s)));
  }

  /** Splitting loses nothing but whether the last newline was there. */
  lemma SplitIsLossless(s: Blob)
    ensures forall l :: l in Split(s) ==> NEWLINE !in l
    ensures s == Join(Split(s)) + LastNewline(s)
  {
    LinesHoldNoNewline(s);
    JoinRebuilds(s);
  }

  // ---------------------------------------------------------------- sending

  function Texts(ls: seq<Blob>): seq<Unit>
  {
    if ls == [] then [] else Texts(ls[..|ls| - 1]) + [Text(ZERO_PADDING, ls[|ls| - 1])]
  }

  function FileUnits(f: File): seq<Unit>
  {
    [Name(f.name)] + Texts(Split(f.content)) + [Eof(ZERO_PADDING)]
  }

  function Units(fs: seq<File>): seq<Unit>
  {
    if fs == [] then [] else Units(fs[..|fs| - 1]) + FileUnits(fs[|fs| - 1])
  }

  function Erase(u: Unit): Unit
  {
    match u
    case Text(_, t) => Text(ZERO_PADDING, t)
    case Eof(_) => Eof(ZERO_PADDING)
    case _ => u
  }

  /** `us` are these units up to padding. */
  ghost predicate Unpadded(us: seq<Unit>, vs: seq<Unit>)
  {
    |us| == |vs| && forall i :: 0 <= i < |us| ==> Erase(us[i]) == vs[i]
  }

  /** `us` is what Main sends for the files, whatever the padding bytes of the line headers are. */
  ghost predicate Sends(us: seq<Unit>, fs: seq<File>)
  {
    Unpadded(us, Units(fs))
  }

  // ---------------------------------------------------------------- receiving

  /** mr_main_receiver_t: between files, or inside one with the number the next line will get. */
  datatype Cursor = Between | Inside(name: Blob, next: nat)

  function KindFor(c: Cursor): Kind
  {
    if c.Between? then NameKind else LineKind
  }

  function Advance(c: Cursor, u: Unit): Cursor
  {
    match (c, u)
    case (Between, Name(n)) => Inside(n, 1)
    case (Inside(n, k), Text(_, _)) => Inside(n, k + 1)
    case (Inside(_, _), Eof(_)) => Between
    case _ => c
  }

  function Delivered(c: Cursor, u: Unit): seq<FileLine>
  {
    if c.Inside? && u.Text? then [FileLine(c.name, c.next, u.text)] else []
  }

  function CursorAfter(c: Cursor, us: seq<Unit>): Cursor
  {
    if us == [] then c else Advance(CursorAfter(c, us[..|us| - 1]), us[|us| - 1])
  }

  function LinesFrom(c: Cursor, us: seq<Unit>): seq<FileLine>
  {
    if us == [] then []
    else LinesFrom(c, us[..|us| - 1]) + Delivered(CursorAfter(c, us[..|us| - 1]), us[|us| - 1])
  }

  /** The specification: the lines of a file in order, numbered from 1. */
  function Numbered(name: Blob, first: nat, ls: seq<Blob>): seq<FileLine>
  {
    seq(|ls|, i requires 0 <= i < |ls| => FileLine(name, first + i, ls[i]))
  }

  function AllLines(fs: seq<File>): seq<FileLine>
  {
    if fs == [] then []
    else AllLines(fs[..|fs| - 1]) + Numbered(fs[|fs| - 1].name, 1, Split(fs[|fs| - 1].content))
  }

  lemma Snoc(c: Cursor, us: seq<Unit>, u: Unit)
    ensures CursorAfter(c, us + [u]) == Advance(CursorAfter(c, us), u)
    ensures LinesFrom(c, us + [u]) == LinesFrom(c, us) + Delivered(CursorAfter(c, us), u)
  {
    assert (us + [u])[..|us|] == us;
  }

  lemma {:induction false} Append(c: Cursor, a: seq<Unit>, b: seq<Unit>)
    ensures CursorAfter(c, a + b) == CursorAfter(CursorAfter(c, a), b)
    ensures LinesFrom(c, a + b) == LinesFrom(c, a) + LinesFrom(CursorAfter(c, a), b)
  {
    hide Advance, Delivered;
    if b == [] {
      assert a + b == a;
    } else {
      var n := |b| - 1;
      Append(c, a, b[..n]);
      assert a + b == (a + b[..n]) + [b[n]] && b == b[..n] + [b[n]];
      hide CursorAfter, LinesFrom;
      Snoc(c, a + b[..n], b[n]);
      Snoc(CursorAfter(c, a), b[..n], b[n]);
    }
  }

  lemma {:induction false} TextsDeliver(name: Blob, ls: seq<Blob>)
    ensures CursorAfter(Inside(name, 1), Texts(ls)) == Inside(name, 1 + |ls|)
    ensures LinesFrom(Inside(name, 1), Texts(ls)) == Numbered(name, 1, ls)
  {
    if ls != [] {
      var n := |ls| - 1;
      TextsDeliver(name, ls[..n]);
      Snoc(Inside(name, 1), Texts(ls[..n]), Text(ZERO_PADDING, ls[n]));
      assert Numbered(name, 1, ls) == Numbered(name, 1, ls[..n]) + [FileLine(name, |ls|, ls[n])];
    }
  }

  lemma NameOpens(name: Blob)
    ensures CursorAfter(Between, [Name(name)]) == Inside(name, 1) && LinesFrom(Between, [Name(name)]) == []
  {
    assert [Name(name)][..0] == [];
  }

  lemma FileDelivers(f: File)
    ensures CursorAfter(Between, FileUnits(f)) == Between
    ensures LinesFrom(Between, FileUnits(f)) == Numbered(f.name, 1, Split(f.content))
  {
    hide Split, Texts, Numbered, CursorAfter, LinesFrom;
    var ls := Split(f.content);
    NameOpens(f.name);
    TextsDeliver(f.name, ls);
    Append(Between, [Name(f.name)], Texts(ls));
    Snoc(Between, [Name(f.name)] + Texts(ls), Eof(ZERO_PADDING));
  }

  lemma {:induction false} UnitsDeliver(fs: seq<File>)
    ensures CursorAfter(Between, Units(fs)) == Between
    ensures LinesFrom(Between, Units(fs)) == AllLines(fs)
  {
    if fs != [] {
      var n := |fs| - 1;
      UnitsDeliver(fs[..n]);
      FileDelivers(fs[n]);
      Append(Between, Units(fs[..n]), FileUnits(fs[n]));
    }
  }

  lemma EraseIsIgnored(c: Cursor, u: Unit)
    ensures Advance(c, u) == Advance(c, Erase(u)) && Delivered(c, u) == Delivered(c, Erase(u))
    ensures KindOf(u) == KindOf(Erase(u))
  {
  }

  /** Padding never matters to the receiver. */
  lemma {:induction false} PaddingIsIgnored(c: Cursor, us: seq<Unit>, vs: seq<Unit>)
    requires Unpadded(us, vs)
    ensures CursorAfter(c, us) == CursorAfter(c, vs)
    ensures LinesFrom(c, us) == LinesFrom(c, vs)
  {
    if us != [] {
      var n := |us| - 1;
      PaddingIsIgnored(c, us[..n], vs[..n]);
      assert Erase(us[n]) == vs[n];
      EraseIsIgnored(CursorAfter(c, us[..n]), us[n]);
      hide Advance, Delivered, Erase;
    }
  }

  /** Each unit arrives when the receiver expects a header of its kind. */
  ghost predicate Expected(us: seq<Unit>)
  {
    forall i :: 0 <= i < |us| ==> KindOf(us[i]) == KindFor(CursorAfter(Between, us[..i]))
  }

  lemma ExpectedAppend(a: seq<Unit>, b: seq<Unit>)
    requires Expected(a) && Expected(b) && CursorAfter(Between, a) == Between
    ensures Expected(a + b)
  {
    forall i | 0 <= i < |a + b| ensures KindOf((a + b)[i]) == KindFor(CursorAfter(Between, (a + b)[..i])) {
      if i < |a| {
        assert (a + b)[..i] == a[..i];
      } else {
        assert (a + b)[..i] == a + b[..i - |a|];
        Append(Between, a, b[..i - |a|]);
      }
    }
  }

  lemma FileExpected(f: File)
    ensures Expected(FileUnits(f))
  {
    hide Split, Texts, Numbered;
    var ls := Split(f.content);
    var us := FileUnits(f);
    TextsShape(ls);
    forall i | 0 <= i < |us| ensures KindOf(us[i]) == KindFor(CursorAfter(Between, us[..i])) {
      if i == 0 {
      } else {
        var k := i - 1;
        TextsShape(ls[..k]);
        assert us[..i] == [Name(f.name)] + Texts(ls[..k]) by { TextsPrefix(ls, k); }
        TextsDeliver(f.name, ls[..k]);
        Append(Between, [Name(f.name)], Texts(ls[..k]));
        NameOpens(f.name);
      }
    }
  }

  lemma {:induction false} TextsShape(ls: seq<Blob>)
    ensures |Texts(ls)| == |ls|
    ensures forall i :: 0 <= i < |ls| ==> Texts(ls)[i] == Text(ZERO_PADDING, ls[i])
  {
    if ls != [] {
      TextsShape(ls[..|ls| - 1]);
    }
  }

  lemma TextsPrefix(ls: seq<Blob>, k: nat)
    requires k <= |ls|
    ensures k <= |Texts(ls)| && Texts(ls)[..k] == Texts(ls[..k])
  {
    TextsShape(ls);
    TextsShape(ls[..k]);
  }

  lemma {:induction false} UnitsExpected(fs: seq<File>)
    ensures Expected(Units(fs))
  {
    if fs != [] {
      var n := |fs| - 1;
      UnitsExpected(fs[..n]);
      UnitsDeliver(fs[..n]);
      FileExpected(fs[n]);
      ExpectedAppend(Units(fs[..n]), FileUnits(fs[n]));
    }
  }

  /** The line protocol round trip on units: whatever the padding, the receiver ends between files having delivered
      exactly the numbered lines of every file, and always expects the kind of unit that comes. */
  lemma Understood(us: seq<Unit>, fs: seq<File>)
    requires Sends(us, fs)
    ensures CursorAfter(Between, us) == Between && LinesFrom(Between, us) == AllLines(fs)
    ensures Expected(us)
  {
    var vs := Units(fs);
    UnitsDeliver(fs);
    UnitsExpected(fs);
    PaddingIsIgnored(Between, us, vs);
    forall i | 0 <= i < |us| ensures KindOf(us[i]) == KindFor(CursorAfter(Between, us[..i])) {
      PaddingIsIgnored(Between, us[..i], vs[..i]);
      EraseIsIgnored(Between, us[i]);
      hide CursorAfter, KindOf, Erase;
      assert Erase(us[i]) == vs[i];
    }
  }
}
