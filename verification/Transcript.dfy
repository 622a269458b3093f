/** What the line protocol has to carry, said without the code's own functions: the lines of a text, a file as it
    appears on the wire (src/protocol.c:83-145), and the lines a mapper is given (src/protocol.c:567-669). */
module Transcript {
  import opened Collections
  import opened Wire
  import opened Lines

  /** The lines with a newline after each. */
  ghost function Terminated(ls: seq<seq<Byte>>): seq<Byte>
  {
    if ls == [] then [] else ls[0] + ['\n' as int] + Terminated(ls[1..])
  }

  /** The lines of a text: only the last one may lack its newline, and then it is not empty. */
  ghost predicate AreLines(ls: seq<seq<Byte>>, content: seq<Byte>)
  {
    && (forall i :: 0 <= i < |ls| ==> '\n' as int !in ls[i])
    && (content == Terminated(ls)
        || (ls != [] && ls[|ls| - 1] != [] && content + ['\n' as int] == Terminated(ls)))
  }

  /** A name, these lines in order, and one end mark. */
  ghost predicate NameLinesEnd(us: seq<Unit>, name: Blob, ls: seq<Blob>)
  {
    && |us| == |ls| + 2 && us[0] == Name(name) && us[|us| - 1].Eof?
    && forall i :: 0 < i < |us| - 1 ==> us[i].Text? && us[i].text == ls[i - 1]
  }

  /** A file on the wire. */
  ghost predicate IsFileOnWire(us: seq<Unit>, f: File)
  {
    exists ls: seq<Blob> :: AreLines(ls, f.content) && NameLinesEnd(us, f.name, ls)
  }

  /** The files one after the other, none left out. */
  ghost predicate AreFilesOnWire(us: seq<Unit>, fs: seq<File>)
    decreases |fs|
  {
    if fs == [] then us == []
    else exists k :: 0 <= k <= |us| && AreFilesOnWire(us[..k], fs[..|fs| - 1]) && IsFileOnWire(us[k..], fs[|fs| - 1])
  }

  /** What the mapper is given for a file: its lines in order, with its name and numbered from 1. */
  ghost predicate AreLinesOfFile(given: seq<FileLine>, f: File)
  {
    exists ls: seq<Blob> ::
      && AreLines(ls, f.content) && |given| == |ls|
      && forall i :: 0 <= i < |ls| ==> given[i] == FileLine(f.name, i + 1, ls[i])
  }

  ghost predicate AreLinesOfFiles(given: seq<FileLine>, fs: seq<File>)
    decreases |fs|
  {
    if fs == [] then given == []
    else
      exists k ::
        && 0 <= k <= |given|
        && AreLinesOfFiles(given[..k], fs[..|fs| - 1]) && AreLinesOfFile(given[k..], fs[|fs| - 1])
  }

  // ---------------------------------------------------------------- a text has exactly one list of lines

  lemma TerminatedCons(l: seq<Byte>, ls: seq<seq<Byte>>)
    ensures Terminated([l] + ls) == l + ['\n' as int] + Terminated(ls)
  {
    assert ([l] + ls)[1..] == ls;
  }

  lemma OneMoreLine(l: Blob, ls: seq<Blob>, r: seq<Byte>)
    requires '\n' as int !in l && AreLines(ls, r)
    ensures AreLines([l] + ls, l + ['\n' as int] + r)
  {
    TerminatedCons(l, ls);
    hide Terminated;
    if r + ['\n' as int] == Terminated(ls) && ls != [] {
      assert l + ['\n' as int] + r + ['\n' as int] == l + ['\n' as int] + (r + ['\n' as int]);
    }
  }

  lemma OnlyLine(l: Blob)
    requires '\n' as int !in l && l != []
    ensures AreLines([l], l)
  {
    TerminatedCons(l, []);
    assert [l] + [] == [l];
  }

  lemma {:induction false} SplitGivesLines(s: Blob)
    ensures AreLines(Split(s), s)
    decreases |s|
  {
    hide Split, Terminated, AreLines, LineLength, AfterLine;
    EmptyText();
    if s != [] {
      var l, r := s[..LineLength(s)], AfterLine(s);
      OneLine(s);
      SplitStep(s);
      if LineLength(s) < |s| {
        SplitGivesLines(r);
        OneMoreLine(l, Split(r), r);
      } else {
        OnlyLine(l);
        assert [l] + [] == [l];
      }
    }
  }

  lemma EmptyText()
    ensures Split([]) == [] && Terminated([]) == [] && AreLines([], [])
  {
  }

  lemma LineLengthIs(s: seq<Byte>, n: nat)
    requires n <= |s| && NEWLINE !in s[..n] && (n < |s| ==> s[n] == NEWLINE)
    ensures LineLength(s) == n
  {
    var m := LineLength(s);
    assert forall k :: 0 <= k < n ==> s[k] == s[..n][k] != NEWLINE;
    assert forall k :: 0 <= k < m ==> s[k] == s[..m][k] != NEWLINE;
  }

  /** What is left of a text after its first line; None if the first line is the last and has no newline. */
  lemma FirstOf(ls: seq<Blob>, s: Blob) returns (r: Option<Blob>)
    requires AreLines(ls, s) && ls != []
    ensures r.None? ==> ls == [s] && s != []
    ensures r.Some? ==> s == ls[0] + ['\n' as int] + r.value && AreLines(ls[1..], r.value)
  {
    var l, rest := ls[0], ls[1..];
    var t := Terminated(rest);
    assert Terminated(ls) == l + ['\n' as int] + t;
    LongerThanOne(rest);
    EmptyText();
    hide Terminated;
    if s == l + ['\n' as int] + t {
      r := Some(t);
    } else if rest == [] {
      r := None;
      DropNewline(s, l);
    } else {
      assert rest[|rest| - 1] == ls[|ls| - 1];
      DropLast(s, l, t);
      r := Some(t[..|t| - 1]);
    }
  }

  lemma DropNewline(s: Blob, l: Blob)
    requires s + ['\n' as int] == l + ['\n' as int] + []
    ensures s == l
  {
    assert s == (s + ['\n' as int])[..|s|] && l == (l + ['\n' as int] + [])[..|l|];
  }

  lemma DropLast(s: Blob, l: Blob, t: seq<Byte>)
    requires s + ['\n' as int] == l + ['\n' as int] + t && t != []
    ensures s == l + ['\n' as int] + t[..|t| - 1] && t[..|t| - 1] + ['\n' as int] == t
  {
    assert s == (s + ['\n' as int])[..|s|];
    assert (s + ['\n' as int])[|s|] == t[|t| - 1];
  }

  lemma {:induction false} LinesAreSplit(ls: seq<Blob>, s: Blob)
    requires AreLines(ls, s)
    ensures ls == Split(s)
    decreases |ls|
  {
    hide Split, Terminated;
    EmptyText();
    if ls != [] {
      var r := FirstOf(ls, s);
      assert ls == [ls[0]] + ls[1..];
      if r.None? {
        LastLineIs(s);
      } else {
        FirstLineIs(ls[0], s, r.value);
        LinesAreSplit(ls[1..], r.value);
      }
    }
  }

  lemma LongerThanOne(ls: seq<seq<Byte>>)
    ensures ls != [] ==> |Terminated(ls)| > 0
  {
  }

  lemma FirstLineIs(l: Blob, s: Blob, r: Blob)
    requires '\n' as int !in l && s == l + ['\n' as int] + r
    ensures Split(s) == [l] + Split(r)
  {
    assert s[..|l|] == l && s[|l|] == NEWLINE && s[|l| + 1..] == r;
    LineLengthIs(s, |l|);
    SplitStep(s);
  }

  lemma LastLineIs(s: Blob)
    requires '\n' as int !in s && s != []
    ensures Split(s) == [s]
  {
    assert s[..|s|] == s;
    LineLengthIs(s, |s|);
    EmptyText();
    SplitStep(s);
  }

  /** A text has exactly one list of lines, and it is the one that is sent. */
  lemma LinesOfText(ls: seq<Blob>, s: Blob)
    ensures AreLines(ls, s) <==> ls == Split(s)
  {
    SplitGivesLines(s);
    if AreLines(ls, s) { LinesAreSplit(ls, s); }
  }

  // ---------------------------------------------------------------- what is sent and what is given

  lemma FileUnitsAre(f: File)
    ensures NameLinesEnd(FileUnits(f), f.name, Split(f.content))
    ensures Unpadded(FileUnits(f), FileUnits(f))
  {
    hide Split;
    TextsShape(Split(f.content));
  }

  /** Two sequences of units with the same name and lines differ at most in padding. */
  lemma SameButPadding(us: seq<Unit>, vs: seq<Unit>, name: Blob, ls: seq<Blob>)
    requires NameLinesEnd(vs, name, ls) && Unpadded(vs, vs)
    ensures NameLinesEnd(us, name, ls) <==> Unpadded(us, vs)
  {
    if NameLinesEnd(us, name, ls) {
      forall i | 0 <= i < |us| ensures Erase(us[i]) == vs[i] {
        assert Erase(vs[i]) == vs[i];
      }
    }
    if Unpadded(us, vs) {
      forall i | 0 < i < |us| - 1 ensures us[i].Text? && us[i].text == ls[i - 1] {
        assert Erase(us[i]) == vs[i];
      }
      assert Erase(us[0]) == vs[0] && Erase(us[|us| - 1]) == vs[|us| - 1];
    }
  }

  lemma FileOnWire(us: seq<Unit>, f: File)
    ensures IsFileOnWire(us, f) <==> Unpadded(us, FileUnits(f))
  {
    hide Split, AreLines, FileUnits, NameLinesEnd, Unpadded;
    FileUnitsAre(f);
    SameButPadding(us, FileUnits(f), f.name, Split(f.content));
    forall ls: seq<Blob> ensures AreLines(ls, f.content) <==> ls == Split(f.content) {
      LinesOfText(ls, f.content);
    }
  }

  lemma UnpaddedCut(us: seq<Unit>, a: seq<Unit>, b: seq<Unit>)
    requires Unpadded(us, a + b)
    ensures |a| <= |us| && Unpadded(us[..|a|], a) && Unpadded(us[|a|..], b)
  {
    assert forall i :: 0 <= i < |a| ==> (a + b)[i] == a[i];
    assert forall i :: 0 <= i < |b| ==> (a + b)[|a| + i] == b[i];
  }

  lemma UnpaddedJoin(us: seq<Unit>, k: nat, a: seq<Unit>, b: seq<Unit>)
    requires k <= |us| && Unpadded(us[..k], a) && Unpadded(us[k..], b)
    ensures Unpadded(us, a + b)
  {
    assert us == us[..k] + us[k..];
  }

  /** What Main sends is exactly the files on the wire, whatever the padding. */
  lemma {:induction false} FilesOnWire(us: seq<Unit>, fs: seq<File>)
    ensures AreFilesOnWire(us, fs) <==> Sends(us, fs)
    decreases |fs|
  {
    hide FileUnits, IsFileOnWire, Unpadded;
    if fs == [] {
      NothingOnWire(us);
    } else {
      var init, last := fs[..|fs| - 1], fs[|fs| - 1];
      if AreFilesOnWire(us, fs) {
        var k :| 0 <= k <= |us| && AreFilesOnWire(us[..k], init) && IsFileOnWire(us[k..], last);
        FilesOnWire(us[..k], init);
        FileOnWire(us[k..], last);
        UnpaddedJoin(us, k, Units(init), FileUnits(last));
      }
      if Sends(us, fs) {
        UnpaddedCut(us, Units(init), FileUnits(last));
        var k := |Units(init)|;
        FilesOnWire(us[..k], init);
        FileOnWire(us[k..], last);
      }
    }
  }

  lemma NothingOnWire(us: seq<Unit>)
    ensures us == [] <==> Unpadded(us, [])
    ensures Units([]) == []
  {
  }

  lemma LinesOfFile(f: File)
    ensures AreLinesOfFile(Numbered(f.name, 1, Split(f.content)), f)
  {
    hide Split, AreLines;
    LinesOfText(Split(f.content), f.content);
  }

  /** What the model calls all lines of the files is exactly what the mapper is to be given. */
  lemma {:induction false} AllLinesAre(fs: seq<File>)
    ensures AreLinesOfFiles(AllLines(fs), fs)
    decreases |fs|
  {
    if fs != [] {
      var init, last := fs[..|fs| - 1], fs[|fs| - 1];
      var k := |AllLines(init)|;
      hide AreLinesOfFile, Numbered, Split;
      AllLinesAre(init);
      LinesOfFile(last);
      assert AllLines(fs)[..k] == AllLines(init) && AllLines(fs)[k..] == Numbered(last.name, 1, Split(last.content));
    }
  }

  lemma {:induction false} GivenOnce(a: seq<FileLine>, b: seq<FileLine>, fs: seq<File>)
    requires AreLinesOfFiles(a, fs) && AreLinesOfFiles(b, fs)
    ensures a == b
    decreases |fs|
  {
    hide AreLinesOfFile;
    if fs != [] {
      var init, last := fs[..|fs| - 1], fs[|fs| - 1];
      var j :| 0 <= j <= |a| && AreLinesOfFiles(a[..j], init) && AreLinesOfFile(a[j..], last);
      var k :| 0 <= k <= |b| && AreLinesOfFiles(b[..k], init) && AreLinesOfFile(b[k..], last);
      GivenOnce(a[..j], b[..k], init);
      GivenOnceForFile(a[j..], b[k..], last);
      assert a == a[..j] + a[j..] && b == b[..k] + b[k..];
    }
  }

  lemma GivenOnceForFile(a: seq<FileLine>, b: seq<FileLine>, f: File)
    requires AreLinesOfFile(a, f) && AreLinesOfFile(b, f)
    ensures a == b
  {
    hide AreLines;
    forall ls: seq<Blob> | AreLines(ls, f.content) ensures ls == Split(f.content) {
      LinesOfText(ls, f.content);
    }
    hide Split;
  }

  /** The line protocol on units: whatever the padding, the receiver that has read the files on the wire has been given
      their lines, is between files, and has always expected the header that came. */
  lemma WireIsUnderstood(us: seq<Unit>, fs: seq<File>)
    requires AreFilesOnWire(us, fs)
    ensures AreLinesOfFiles(LinesFrom(Between, us), fs) && CursorAfter(Between, us) == Between && Expected(us)
  {
    FilesOnWire(us, fs);
    Understood(us, fs);
    AllLinesAre(fs);
  }
}
