/** The word_count example (examples/word_count/main.c): its tokeniser, its reducer, its reader of the output file, and
    what the whole pipeline computes with them. */
module WordCount {
  import opened Collections
  import opened Wire
  import opened Lines
  import opened Grouping
  import opened Output

  // ---------------------------------------------------------------- letters and runs

  const DIGITS: string := "0123456789"

  const CAPITALS: string := "ABCDEFGHIJKLMNOPQRSTUVWXYZ"

  const SMALL: string := "abcdefghijklmnopqrstuvwxyz"

  /** isalnum in the C locale. */
  predicate IsAlnum(b: Byte)
  {
    48 <= b <= 57 || 65 <= b <= 90 || 97 <= b <= 122
  }

  lemma Alphabet()
    ensures |DIGITS| == 10 && forall k :: 0 <= k < 10 ==> DIGITS[k] as int == 48 + k
    ensures |CAPITALS| == 26 && forall k :: 0 <= k < 26 ==> CAPITALS[k] as int == 65 + k
    ensures |SMALL| == 26 && forall k :: 0 <= k < 26 ==> SMALL[k] as int == 97 + k
  {
  }

  /** The alphanumerics are the digits and the letters, and each capital has the small letter at its place. */
  lemma AlphanumericsAre(b: Byte)
    ensures IsAlnum(b) <==> b as char in DIGITS || b as char in CAPITALS || b as char in SMALL
    ensures forall k :: 0 <= k < 26 && b as char == CAPITALS[k] ==> ToLower(b) as char == SMALL[k]
    ensures b as char !in CAPITALS ==> ToLower(b) == b
  {
    Alphabet();
    assert 48 <= b <= 57 ==> DIGITS[b - 48] == b as char;
    assert 65 <= b <= 90 ==> CAPITALS[b - 65] == b as char;
    assert 97 <= b <= 122 ==> SMALL[b - 97] == b as char;
  }

  /** tolower in the C locale. */
  function ToLower(b: Byte): Byte
  {
    if 65 <= b <= 90 then b + 32 else b
  }

  function Lower(s: seq<Byte>): (r: seq<Byte>)
    ensures |r| == |s| && forall i :: 0 <= i < |s| ==> r[i] == ToLower(s[i])
  {
    seq(|s|, i requires 0 <= i < |s| => ToLower(s[i]))
  }

  /** The specification: w is s with every capital replaced by its small letter, and nothing else. */
  ghost predicate SpelledAs(s: seq<Byte>, w: seq<Byte>)
  {
    && |w| == |s|
    && forall i :: 0 <= i < |s| ==> w[i] == if 'A' <= s[i] as char <= 'Z' then s[i] + 32 else s[i]
  }

  ghost predicate HasCapital(s: seq<Byte>)
  {
    exists i :: 0 <= i < |s| && 'A' <= s[i] as char <= 'Z'
  }

  lemma SpelledIsLower(s: seq<Byte>, w: seq<Byte>)
    ensures SpelledAs(s, w) <==> w == Lower(s)
    ensures SpelledAs(s, w) ==> !HasCapital(w)
  {
  }

  predicate Alphanumeric(s: seq<Byte>)
  {
    forall i :: 0 <= i < |s| ==> IsAlnum(s[i])
  }

  /** The specification: [i, j) is a run of alphanumerics that cannot be extended on either side. */
  predicate MaximalRun(line: seq<Byte>, i: nat, j: nat)
  {
    && i < j <= |line| && (forall k :: i <= k < j ==> IsAlnum(line[k]))
    && (i > 0 ==> !IsAlnum(line[i - 1])) && (j < |line| ==> !IsAlnum(line[j]))
  }

  datatype Span = Span(start: nat, end: nat)

  /** The spans, all starting at or after `from`, are in order and apart, and are all the maximal runs from there on. */
  ghost predicate AllRuns(line: seq<Byte>, spans: seq<Span>, from: nat, to: nat)
  {
    && (forall k :: 0 <= k < |spans| ==>
          from <= spans[k].start && spans[k].end <= to && MaximalRun(line, spans[k].start, spans[k].end))
    && (forall k, l :: 0 <= k < l < |spans| ==> spans[k].end < spans[l].start)
    && (forall i: nat, j: nat :: MaximalRun(line, i, j) && from <= i && j <= to ==> Span(i, j) in spans)
  }

  /** The token at a span of the line, as it is emitted. */
  function Token(line: Blob, s: Span): seq<Byte>
  {
    if s.start <= s.end <= |line| then Lower(line[s.start..s.end]) else []
  }

  lemma RunIsAlphanumeric(line: Blob, i: nat, j: nat)
    requires MaximalRun(line, i, j)
    ensures Alphanumeric(line[i..j]) && 0 !in Token(line, Span(i, j))
  {
  }

  function RunEnd(line: seq<Byte>, p: nat): (e: nat)
    requires p <= |line|
    ensures p <= e <= |line| && (forall k :: p <= k < e ==> IsAlnum(line[k])) && (e < |line| ==> !IsAlnum(line[e]))
    decreases |line| - p
  {
    if p < |line| && IsAlnum(line[p]) then RunEnd(line, p + 1) else p
  }

  /** The runs from a position on, as a function for the specification. */
  ghost function Runs(line: seq<Byte>, p: nat): seq<Span>
    requires p <= |line|
    decreases |line| - p
  {
    if p == |line| then []
    else if !IsAlnum(line[p]) then Runs(line, p + 1)
    else [Span(p, RunEnd(line, p))] + Runs(line, RunEnd(line, p))
  }

  lemma {:induction false} RunsSkip(line: seq<Byte>, p: nat, q: nat)
    requires p <= q <= |line| && forall k :: p <= k < q ==> !IsAlnum(line[k])
    ensures Runs(line, p) == Runs(line, q)
    decreases q - p
  {
    if p < q { RunsSkip(line, p + 1, q); }
  }

  lemma {:induction false} RunEndIs(line: seq<Byte>, p: nat, e: nat)
    requires p <= e <= |line| && (forall k :: p <= k < e ==> IsAlnum(line[k])) && (e < |line| ==> !IsAlnum(line[e]))
    ensures RunEnd(line, p) == e
    decreases e - p
  {
    if p < e { RunEndIs(line, p + 1, e); }
  }

  lemma RunsTake(line: seq<Byte>, p: nat, e: nat)
    requires p < e <= |line| && (forall k :: p <= k < e ==> IsAlnum(line[k])) && (e < |line| ==> !IsAlnum(line[e]))
    ensures Runs(line, p) == [Span(p, e)] + Runs(line, e)
  {
    RunEndIs(line, p, e);
  }

  /** word_count_mapper: the emitted tokens are exactly the maximal alphanumeric runs of the line, in order, in lower
      case, and every alphanumeric position lies in one of them. */
  method Tokenise(line: Blob) returns (tokens: seq<CString>, ghost spans: seq<Span>)
    ensures AllRuns(line, spans, 0, |line|) && |tokens| == |spans| == |MapWords(line)| && spans == Runs(line, 0)
    ensures forall k :: 0 <= k < |spans| ==> spans[k].start <= spans[k].end <= |line|
    ensures forall k :: 0 <= k < |spans| ==>
              SpelledAs(line[spans[k].start..spans[k].end], tokens[k]) && !HasCapital(tokens[k])
    ensures Covered(line, spans, |line|)
    ensures forall k :: 0 <= k < |tokens| ==> MapWords(line)[k] == Record(tokens[k], [])
  {
    hide AllRuns, Covered, Runs, MaximalRun, Words, AsRecords, MapWords, SpelledAs, HasCapital;
    tokens, spans := [], [];
    var cur := 0;
    NoRunsYet(line);
    while cur < |line|
      invariant cur <= |line| && |tokens| == |spans| && Separated(line, cur)
      invariant AllRuns(line, spans, 0, cur) && Covered(line, spans, cur)
      invariant spans + Runs(line, cur) == Runs(line, 0)
      invariant forall k :: 0 <= k < |spans| ==> spans[k].start <= spans[k].end <= |line|
      invariant forall k :: 0 <= k < |spans| ==> tokens[k] == Token(line, spans[k])
    {
      ghost var from := cur;
      while cur < |line| && !IsAlnum(line[cur])
        invariant from <= cur <= |line| && forall k :: from <= k < cur ==> !IsAlnum(line[k])
      {
        cur := cur + 1;
      }
      RunsSkip(line, from, cur);
      if cur >= |line| {
        NothingMore(line, spans, from, cur);
        break;
      }
      var start := cur;
      while cur < |line| && IsAlnum(line[cur])
        invariant start <= cur <= |line| && forall k :: start <= k < cur ==> IsAlnum(line[k])
      {
        cur := cur + 1;
      }
      var token := LowerCase(line[start..cur]);
      NextRun(line, spans, from, start, cur);
      RunIsAlphanumeric(line, start, cur);
      RunsTake(line, start, cur);
      Assoc(spans, [Span(start, cur)], Runs(line, cur));
      tokens := tokens + [token];
      spans := spans + [Span(start, cur)];
    }
    EmitsItsWords(line, tokens);
    AsRecordsAre(tokens);
    TokensAreSpelled(line, spans, tokens);
  }

  lemma TokensAreSpelled(line: Blob, spans: seq<Span>, tokens: seq<CString>)
    requires |tokens| == |spans| && forall k :: 0 <= k < |spans| ==> spans[k].start <= spans[k].end <= |line|
    requires forall k :: 0 <= k < |spans| ==> tokens[k] == Token(line, spans[k])
    ensures forall k :: 0 <= k < |spans| ==>
              SpelledAs(line[spans[k].start..spans[k].end], tokens[k]) && !HasCapital(tokens[k])
  {
    hide SpelledAs, HasCapital, Lower;
    forall k | 0 <= k < |spans|
      ensures SpelledAs(line[spans[k].start..spans[k].end], tokens[k]) && !HasCapital(tokens[k])
    {
      SpelledIsLower(line[spans[k].start..spans[k].end], tokens[k]);
    }
  }

  /** The copy loop. */
  method LowerCase(s: seq<Byte>) returns (r: seq<Byte>)
    ensures r == Lower(s)
  {
    r := [];
    var i := 0;
    while i < |s|
      invariant i <= |s| && |r| == i && forall k :: 0 <= k < i ==> r[k] == ToLower(s[k])
    {
      r := r + [ToLower(s[i])];
      i := i + 1;
    }
  }

  /** No run straddles this position. */
  ghost predicate Separated(line: seq<Byte>, p: nat)
  {
    0 < p < |line| ==> !IsAlnum(line[p])
  }

  ghost predicate Covered(line: seq<Byte>, spans: seq<Span>, to: nat)
    requires to <= |line|
  {
    forall p :: 0 <= p < to && IsAlnum(line[p]) ==> exists k :: 0 <= k < |spans| && spans[k].start <= p < spans[k].end
  }

  lemma NoRunsYet(line: seq<Byte>)
    ensures AllRuns(line, [], 0, 0) && Covered(line, [], 0) && [] + Runs(line, 0) == Runs(line, 0)
    ensures Runs(line, |line|) == []
  {
  }

  lemma RunsStopAt(line: seq<Byte>, from: nat, i: nat, j: nat)
    requires Separated(line, from) && from <= |line| && MaximalRun(line, i, j)
    ensures j <= from || from <= i
  {
  }

  lemma NothingMore(line: seq<Byte>, spans: seq<Span>, from: nat, to: nat)
    requires from <= to <= |line| && Separated(line, from) && AllRuns(line, spans, 0, from)
    requires Covered(line, spans, from)
    requires forall k :: from <= k < to ==> !IsAlnum(line[k])
    ensures AllRuns(line, spans, 0, to) && Covered(line, spans, to)
  {
    forall i: nat, j: nat | MaximalRun(line, i, j) && j <= to ensures Span(i, j) in spans {
      RunsStopAt(line, from, i, j);
      assert IsAlnum(line[i]);
    }
  }

  /** [start, end) is the only maximal run between from and end. */
  lemma OnlyRun(line: seq<Byte>, from: nat, start: nat, end: nat, i: nat, j: nat)
    requires from <= start < end <= |line| && Separated(line, from) && MaximalRun(line, i, j) && j <= end
    requires forall k :: from <= k < start ==> !IsAlnum(line[k])
    requires forall k :: start <= k < end ==> IsAlnum(line[k])
    ensures j <= from || (i == start && j == end)
  {
    RunsStopAt(line, from, i, j);
    if from <= i {
      assert IsAlnum(line[i]);
    }
  }

  lemma NextRun(line: seq<Byte>, spans: seq<Span>, from: nat, start: nat, end: nat)
    requires from <= start < end <= |line| && Separated(line, from) && AllRuns(line, spans, 0, from)
    requires Covered(line, spans, from)
    requires forall k :: from <= k < start ==> !IsAlnum(line[k])
    requires forall k :: start <= k < end ==> IsAlnum(line[k])
    requires end < |line| ==> !IsAlnum(line[end])
    requires start == from ==> from == 0
    ensures MaximalRun(line, start, end) && AllRuns(line, spans + [Span(start, end)], 0, end)
    ensures Covered(line, spans + [Span(start, end)], end) && Separated(line, end)
  {
    assert MaximalRun(line, start, end);
    NextRunCovers(line, spans, from, start, end);
    hide Covered, Separated;
    var spans' := spans + [Span(start, end)];
    forall i: nat, j: nat | MaximalRun(line, i, j) && j <= end ensures Span(i, j) in spans' {
      OnlyRun(line, from, start, end, i, j);
      hide MaximalRun;
    }
    hide MaximalRun;
    assert forall k :: 0 <= k < |spans| ==> spans'[k] == spans[k];
  }

  lemma NextRunCovers(line: seq<Byte>, spans: seq<Span>, from: nat, start: nat, end: nat)
    requires from <= start < end <= |line| && Covered(line, spans, from)
    requires forall k :: from <= k < start ==> !IsAlnum(line[k])
    ensures Covered(line, spans + [Span(start, end)], end)
  {
    var spans' := spans + [Span(start, end)];
    forall p | 0 <= p < end && IsAlnum(line[p])
      ensures exists k :: 0 <= k < |spans'| && spans'[k].start <= p < spans'[k].end
    {
      if p < from {
        var k :| 0 <= k < |spans| && spans[k].start <= p < spans[k].end;
        assert spans'[k] == spans[k];
      } else {
        assert spans'[|spans|] == Span(start, end);
      }
    }
  }

  // ---------------------------------------------------------------- the user functions

  function NextAlnum(line: seq<Byte>, p: nat): (q: nat)
    requires p <= |line|
    ensures p <= q <= |line| && (forall k :: p <= k < q ==> !IsAlnum(line[k])) && (q < |line| ==> IsAlnum(line[q]))
    decreases |line| - p
  {
    if p < |line| && !IsAlnum(line[p]) then NextAlnum(line, p + 1) else p
  }

  lemma {:induction false} RunsContinue(line: Blob, spans: seq<Span>, p: nat)
    requires p <= |line| && Separated(line, p) && AllRuns(line, spans, 0, p) && Covered(line, spans, p)
    requires spans + Runs(line, p) == Runs(line, 0)
    ensures AllRuns(line, Runs(line, 0), 0, |line|)
    decreases |line| - p
  {
    var q := NextAlnum(line, p);
    RunsSkip(line, p, q);
    if q == |line| {
      NothingMore(line, spans, p, q);
    } else {
      var e := RunEnd(line, q);
      NextRun(line, spans, p, q, e);
      RunsTake(line, q, e);
      Assoc(spans, [Span(q, e)], Runs(line, e));
      RunsContinue(line, spans + [Span(q, e)], e);
    }
  }

  /** The specification function finds exactly the maximal runs. */
  lemma RunsAreTheMaximalRuns(line: Blob)
    ensures AllRuns(line, Runs(line, 0), 0, |line|)
  {
    RunsContinue(line, [], 0);
  }

  ghost function Words(line: Blob, spans: seq<Span>): (ws: seq<CString>)
    requires forall k :: 0 <= k < |spans| ==> MaximalRun(line, spans[k].start, spans[k].end)
    ensures |ws| == |spans|
    ensures forall k :: 0 <= k < |ws| ==> ws[k] == Token(line, spans[k])
  {
    if spans == [] then []
    else
      RunIsAlphanumeric(line, spans[|spans| - 1].start, spans[|spans| - 1].end);
      Words(line, spans[..|spans| - 1]) + [Token(line, spans[|spans| - 1])]
  }

  /** What word_count_mapper emits for a line: every word, with an empty value. */
  ghost function WordMapper(): FileLine -> seq<Record>
  {
    (l: FileLine) => MapWords(l.text)
  }

  ghost function MapWords(line: Blob): seq<Record>
  {
    RunsAreTheMaximalRuns(line);
    AsRecords(Words(line, Runs(line, 0)))
  }

  lemma EmitsItsWords(line: Blob, tokens: seq<CString>)
    requires |tokens| == |Runs(line, 0)| && forall k :: 0 <= k < |tokens| ==> tokens[k] == Token(line, Runs(line, 0)[k])
    ensures AsRecords(tokens) == MapWords(line)
  {
    RunsAreTheMaximalRuns(line);
    hide Runs, Token, MaximalRun, AsRecords;
    assert tokens == Words(line, Runs(line, 0));
  }

  ghost function AsRecords(ws: seq<CString>): seq<Record>
  {
    if ws == [] then [] else AsRecords(ws[..|ws| - 1]) + [Record(ws[|ws| - 1], [])]
  }

  lemma {:induction false} AsRecordsAre(ws: seq<CString>)
    ensures |AsRecords(ws)| == |ws| && forall k :: 0 <= k < |ws| ==> AsRecords(ws)[k] == Record(ws[k], [])
  {
    if ws != [] {
      AsRecordsAre(ws[..|ws| - 1]);
    }
  }

  // ---------------------------------------------------------------- letter case

  /** The lines differ at most in the case of letters. */
  ghost predicate SameButCase(a: seq<Byte>, b: seq<Byte>)
  {
    && |a| == |b|
    && forall i :: 0 <= i < |a| ==>
         || a[i] == b[i]
         || ('A' <= a[i] as char <= 'Z' && b[i] == a[i] + 32)
         || ('A' <= b[i] as char <= 'Z' && a[i] == b[i] + 32)
  }

  lemma SameAlnum(a: seq<Byte>, b: seq<Byte>)
    requires SameButCase(a, b)
    ensures forall i :: 0 <= i < |a| ==> (IsAlnum(a[i]) <==> IsAlnum(b[i])) && ToLower(a[i]) == ToLower(b[i])
  {
  }

  lemma {:induction false} SameRuns(a: seq<Byte>, b: seq<Byte>, p: nat)
    requires |a| == |b| && p <= |a| && forall i :: 0 <= i < |a| ==> (IsAlnum(a[i]) <==> IsAlnum(b[i]))
    ensures Runs(a, p) == Runs(b, p)
    decreases |a| - p
  {
    if p < |a| && !IsAlnum(a[p]) {
      SameRuns(a, b, p + 1);
    } else if p < |a| {
      RunEndIs(b, p, RunEnd(a, p));
      SameRuns(a, b, RunEnd(a, p));
    }
  }

  /** Two lines that differ at most in letter case are mapped to the same words. */
  lemma CaseDoesNotMatter(a: Blob, b: Blob)
    requires SameButCase(a, b)
    ensures MapWords(a) == MapWords(b)
  {
    hide Runs, IsAlnum, ToLower, MaximalRun, Token, AsRecords, SameButCase;
    SameAlnum(a, b) by { SameSize(a, b); }
    SameSize(a, b);
    SameRuns(a, b, 0);
    RunsAreTheMaximalRuns(a);
    RunsAreTheMaximalRuns(b);
    var spans := Runs(a, 0);
    forall k | 0 <= k < |spans| ensures Token(a, spans[k]) == Token(b, spans[k]) {
      SameToken(a, b, spans[k]);
    }
    assert Words(a, spans) == Words(b, spans);
  }

  lemma SameSize(a: seq<Byte>, b: seq<Byte>)
    requires SameButCase(a, b)
    ensures |a| == |b|
  {
  }

  lemma SameToken(a: Blob, b: Blob, s: Span)
    requires |a| == |b| && forall i :: 0 <= i < |a| ==> ToLower(a[i]) == ToLower(b[i])
    ensures Token(a, s) == Token(b, s)
  {
    hide ToLower;
    if s.start <= s.end <= |a| {
      var x, y := a[s.start..s.end], b[s.start..s.end];
      assert forall i :: 0 <= i < |x| ==> x[i] == a[s.start + i] && y[i] == b[s.start + i];
      assert Lower(x) == Lower(y);
    }
  }

  /** word_count_reducer: the number of values, as a size_t. */
  ghost function WordReducer(): Group -> seq<Record>
  {
    (g: Group) => [Record(g.token, Size(|g.values|))]
  }

  // ---------------------------------------------------------------- counting

  /** The specification: how many maximal alphanumeric runs of the line are this word, letter case aside. */
  ghost function RunSet(line: Blob): (runs: set<Span>)
    ensures forall s :: s in runs ==> s.start <= s.end <= |line|
  {
    set i: nat, j: nat | i < |line| && j <= |line| && MaximalRun(line, i, j) :: Span(i, j)
  }

  ghost function Matching(line: Blob, w: CString): set<Span>
  {
    set s | s in RunSet(line) && SpelledAs(line[s.start..s.end], w)
  }

  ghost function OccursIn(w: CString): FileLine -> nat { (l: FileLine) => |Matching(l.text, w)| }

  ghost function Occurrences(files: seq<File>, w: CString): nat
  {
    SumNat(OccursIn(w), AllLines(files))
  }

  ghost function MatchingOf(line: Blob, spans: seq<Span>, w: CString): set<Span>
  {
    set s | s in spans && Token(line, s) == w
  }

  lemma {:induction false} ValuesOfWords(line: Blob, spans: seq<Span>, w: CString)
    requires forall k :: 0 <= k < |spans| ==> MaximalRun(line, spans[k].start, spans[k].end)
    requires forall k, l :: 0 <= k < l < |spans| ==> spans[k].end < spans[l].start
    ensures |ValuesOf(AsRecords(Words(line, spans)), w)| == |MatchingOf(line, spans, w)|
  {
    hide Token, MaximalRun, RunEnd;
    if spans == [] {
      assert MatchingOf(line, spans, w) == {};
    } else {
      var n := |spans| - 1;
      var ws := Words(line, spans);
      ValuesOfWords(line, spans[..n], w);
      ValuesOfSnoc(AsRecords(ws[..n]), Record(ws[n], []), w);
      assert ws[..n] == Words(line, spans[..n]);
      LastIsNew(line, spans);
      MatchingSnoc(line, spans, w);
    }
  }

  lemma LastIsNew(line: Blob, spans: seq<Span>)
    requires spans != [] && forall k :: 0 <= k < |spans| ==> MaximalRun(line, spans[k].start, spans[k].end)
    requires forall k, l :: 0 <= k < l < |spans| ==> spans[k].end < spans[l].start
    ensures spans[|spans| - 1] !in spans[..|spans| - 1]
  {
  }

  lemma MatchingSnoc(line: Blob, spans: seq<Span>, w: CString)
    requires spans != [] && spans[|spans| - 1] !in spans[..|spans| - 1]
    ensures var n := |spans| - 1;
            && spans[n] !in MatchingOf(line, spans[..n], w)
            && MatchingOf(line, spans, w)
            == MatchingOf(line, spans[..n], w) + if Token(line, spans[n]) == w then {spans[n]} else {}
  {
    hide Token;
    var n := |spans| - 1;
    assert spans == spans[..n] + [spans[n]];
  }

  lemma SpansAreRunSet(line: Blob, spans: seq<Span>)
    requires AllRuns(line, spans, 0, |line|)
    ensures forall s :: s in spans <==> s in RunSet(line)
  {
    forall s | s in RunSet(line) ensures s in spans {
      assert MaximalRun(line, s.start, s.end);
    }
    forall s | s in spans ensures s in RunSet(line) {
      assert MaximalRun(line, s.start, s.end);
    }
  }

  lemma MatchingIs(line: Blob, spans: seq<Span>, w: CString)
    requires AllRuns(line, spans, 0, |line|)
    ensures MatchingOf(line, spans, w) == Matching(line, w)
  {
    SpansAreRunSet(line, spans);
    forall s | s in spans ensures Token(line, s) == w <==> SpelledAs(line[s.start..s.end], w) {
      SpelledIsLower(line[s.start..s.end], w);
    }
    hide Token, AllRuns, RunSet, SpelledAs;
  }

  lemma ValuesOfLine(l: FileLine, w: CString)
    ensures |ValuesOf(WordMapper()(l), w)| == OccursIn(w)(l)
  {
    var line := l.text;
    RunsAreTheMaximalRuns(line);
    MatchingIs(line, Runs(line, 0), w);
    hide ValuesOf, Token, Runs, Words, AsRecords, MatchingOf, Matching, MaximalRun;
    ValuesOfWords(line, Runs(line, 0), w);
  }

  lemma {:induction false} ValuesOfAppend(a: seq<Record>, b: seq<Record>, w: CString)
    ensures ValuesOf(a + b, w) == ValuesOf(a, w) + ValuesOf(b, w)
  {
    if b == [] {
      assert a + b == a;
    } else {
      var n := |b| - 1;
      ValuesOfAppend(a, b[..n], w);
      assert a + b == (a + b[..n]) + [b[n]] && b == b[..n] + [b[n]];
      hide ValuesOf;
      ValuesOfSnoc(a + b[..n], b[n], w);
      ValuesOfSnoc(b[..n], b[n], w);
    }
  }

  /** A word is emitted once for each of its occurrences. */
  lemma {:induction false} EmittedOncePerOccurrence(ls: seq<FileLine>, w: CString)
    ensures |ValuesOf(FlatMap(WordMapper(), ls), w)| == SumNat(OccursIn(w), ls)
  {
    hide ValuesOf, WordMapper, OccursIn;
    if ls == [] {
      assert |ValuesOf([], w)| == 0 by { NoValues(w); }
    } else {
      var n := |ls| - 1;
      EmittedOncePerOccurrence(ls[..n], w);
      ValuesOfAppend(FlatMap(WordMapper(), ls[..n]), WordMapper()(ls[n]), w);
      ValuesOfLine(ls[n], w);
    }
  }

  lemma NoValues(w: CString)
    ensures ValuesOf([], w) == []
  {
  }

  // ---------------------------------------------------------------- the reader of the output file

  /** A line of print_results. */
  datatype Shown = WithCount(token: CString, count: nat) | UnknownData(token: CString)

  function Show(r: Record): Shown
  {
    if |r.payload| == 8 then WithCount(r.token, FromSize(r.payload)) else UnknownData(r.token)
  }

  function ShowAll(rs: seq<Record>): (ls: seq<Shown>)
    ensures |ls| == |rs| && forall i :: 0 <= i < |rs| ==> ls[i] == Show(rs[i])
  {
    seq(|rs|, i requires 0 <= i < |rs| => Show(rs[i]))
  }

  /** The file ends where a record ends. */
  predicate Whole(f: seq<Byte>)
    decreases |f|
  {
    f == [] || (ReadRecord(f).Some? && Whole(ReadRecord(f).value.1))
  }

  lemma WholeStep(r: Record, rest: seq<Byte>)
    ensures Whole(FileRecord(r) + rest) == Whole(rest)
  {
    ReadRecordRoundTrip(r, rest);
    hide FileRecord, ReadRecord;
  }

  lemma {:induction false} WholeAppend(rs: seq<Record>, rest: seq<Byte>)
    ensures Whole(FileOf(rs) + rest) == Whole(rest)
    decreases |rs|
  {
    hide FileRecord, Whole;
    if rs == [] {
      assert FileOf(rs) + rest == rest;
    } else {
      var init, last := rs[..|rs| - 1], rs[|rs| - 1];
      WholeAppend(init, FileRecord(last) + rest);
      WholeStep(last, rest);
      Assoc(FileOf(init), FileRecord(last), rest);
    }
  }

  lemma FilesAreWhole(rs: seq<Record>)
    ensures Whole(FileOf(rs)) && Decoded(FileOf(rs)) == rs
  {
    WholeAppend(rs, []);
    FileRoundTrip(rs);
    assert FileOf(rs) + [] == FileOf(rs);
  }

  lemma NoMoreRecords(f: seq<Byte>)
    requires ReadRecord(f).None?
    ensures ShowAll(Decoded(f)) == [] && Leftover(f) == f
  {
  }

  lemma NothingLeft()
    ensures ShowAll(Decoded([])) + ShowLeftover(Leftover([])) == [] && ShowLeftover([]) == []
  {
  }

  lemma OneMoreRecord(f: seq<Byte>, r: Record, rest: seq<Byte>)
    requires ReadRecord(f) == Some((r, rest))
    ensures ShowAll(Decoded(f)) + ShowLeftover(Leftover(f))
         == [Show(r)] + (ShowAll(Decoded(rest)) + ShowLeftover(Leftover(rest)))
  {
    assert ShowAll(Decoded(f)) == [Show(r)] + ShowAll(Decoded(rest)) by { assert Decoded(f) == [r] + Decoded(rest); }
    assert Leftover(f) == Leftover(rest);
    hide ShowLeftover, Leftover, ShowAll, Decoded, ReadRecord;
  }

  lemma TokenCut(f: seq<Byte>)
    requires |f| < 8 || |f| < 8 + FromSize(f[..8])
    ensures ReadRecord(f).None? && ShowLeftover(f) == []
  {
  }

  /** ReadRecord, field after field. */
  lemma FieldByField(f: seq<Byte>, afterToken: seq<Byte>)
    requires |f| >= 8 && |f| >= 8 + FromSize(f[..8]) && afterToken == f[8 + FromSize(f[..8])..]
    ensures |afterToken| < 8 ==> ReadRecord(f).None? && ShowLeftover(f) == []
    ensures |afterToken| >= 8 && |afterToken| < 8 + FromSize(afterToken[..8]) ==>
              && ReadRecord(f).None?
              && var token := UpToNul(f[8..8 + FromSize(f[..8])]);
                 ShowLeftover(f) == if FromSize(afterToken[..8]) == 8 then [] else [UnknownData(token)]
    ensures |afterToken| >= 8 && |afterToken| >= 8 + FromSize(afterToken[..8]) ==>
              var m := FromSize(afterToken[..8]);
              var token := UpToNul(f[8..8 + FromSize(f[..8])]);
              ReadRecord(f) == Some((Record(token, afterToken[8..8 + m]), afterToken[8 + m..]))
  {
    hide FromSize, UpToNul;
    var n := FromSize(f[..8]);
    if |afterToken| >= 8 {
      assert f[8 + n..8 + n + 8] == afterToken[..8];
      var m := FromSize(afterToken[..8]);
      if |afterToken| >= 8 + m {
        assert f[8 + n + 8..8 + n + 8 + m] == afterToken[8..8 + m] && f[8 + n + 8 + m..] == afterToken[8 + m..];
      }
    }
  }

  /** What follows the last whole record of a file. */
  function Leftover(f: seq<Byte>): seq<Byte>
    decreases |f|
  {
    match ReadRecord(f)
    case None => f
    case Some((_, rest)) => Leftover(rest)
  }

  /** A leftover with a whole token and a result length other than eight is taken for a record that cannot be shown:
      seeking beyond the end of the file succeeds. */
  function ShowLeftover(f: seq<Byte>): seq<Shown>
  {
    if |f| < 8 || |f| < 8 + FromSize(f[..8]) + 8 then []
    else
      var n := FromSize(f[..8]);
      if FromSize(f[8 + n..8 + n + 8]) == 8 then [] else [UnknownData(UpToNul(f[8..8 + n]))]
  }

  lemma WholeIff(f: seq<Byte>)
    ensures Whole(f) <==> Leftover(f) == []
  {
  }

  /** One line per record, in order, and one for a last record whose unshowable result is cut short. */
  method PrintResults(f: seq<Byte>) returns (shown: seq<Shown>)
    ensures shown == ShowAll(Decoded(f)) + ShowLeftover(Leftover(f))
    ensures Whole(f) ==> shown == ShowAll(Decoded(f))
  {
    hide FromSize, Size, UpToNul, ReadRecord, Decoded, Whole, Leftover, ShowLeftover;
    WholeIff(f);
    NothingLeft();
    shown := [];
    var rest := f;
    while |rest| >= 8
      invariant ShowAll(Decoded(f)) + ShowLeftover(Leftover(f))
             == shown + (ShowAll(Decoded(rest)) + ShowLeftover(Leftover(rest)))
      decreases |rest|
    {
      ghost var left := rest;
      var tokenLen := FromSize(rest[..8]);
      if |rest| < 8 + tokenLen {
        TokenCut(left);
        NoMoreRecords(left);
        return;
      }
      var token := UpToNul(rest[8..8 + tokenLen]);
      rest := rest[8 + tokenLen..];
      FieldByField(left, rest);
      if |rest| < 8 {
        NoMoreRecords(left);
        return;
      }
      var resultSize := FromSize(rest[..8]);
      if |rest| >= 8 + resultSize {
        ghost var r := Record(token, rest[8..8 + resultSize]);
        OneMoreRecord(left, r, rest[8 + resultSize..]);
        ghost var after := rest[8 + resultSize..];
        Assoc(shown, [Show(r)], ShowAll(Decoded(after)) + ShowLeftover(Leftover(after)));
      } else {
        NoMoreRecords(left);
      }
      if resultSize == 8 {
        if |rest| < 16 { return; }
        shown := shown + [WithCount(token, FromSize(rest[8..16]))];
        rest := rest[16..];
      } else {
        shown := shown + [UnknownData(token)];
        rest := if |rest| < 8 + resultSize then [] else rest[8 + resultSize..];
      }
    }
    TokenCut(rest);
    NoMoreRecords(rest);
  }
}
