/** The word_count program on the whole pipeline: whatever the schedule, the output file is the table of word counts
    (examples/word_count/main.c:13-68 with src/mapper.c, src/reducer.c and src/protocol.c). */
module WordCountPipeline {
  import opened Collections
  import opened Wire
  import opened Lines
  import opened Grouping
  import opened Output
  import opened Pipeline
  import opened PipelineSafety
  import opened WordCount
  import P = Pool

  ghost predicate CountsWords(c: Config)
  {
    c.mapper == WordMapper() && c.reducer == WordReducer()
  }

  /** The specification of the output: no word twice, and exactly the words that occur, each with how often. */
  ghost predicate WordTable(rs: seq<Record>, files: seq<File>)
  {
    && (forall i, j :: 0 <= i < j < |rs| ==> rs[i].token != rs[j].token)
    && (forall r :: r in rs ==> Occurrences(files, r.token) > 0 && r.payload == Size(Occurrences(files, r.token)))
    && (forall w: CString :: Occurrences(files, w) > 0 ==> exists r :: r in rs && r.token == w)
  }

  /** The records the reducer emits for these groups, in this order. */
  ghost function Counted(gs: seq<Group>): (rs: seq<Record>)
    ensures |rs| == |gs|
    ensures forall i :: 0 <= i < |gs| ==> rs[i] == Record(gs[i].token, Size(|gs[i].values|))
  {
    seq(|gs|, i requires 0 <= i < |gs| => Record(gs[i].token, Size(|gs[i].values|)))
  }

  lemma CountedSnoc(gs: seq<Group>)
    requires gs != []
    ensures var g := gs[|gs| - 1];
            Counted(gs) == Counted(gs[..|gs| - 1]) + [Record(g.token, Size(|g.values|))]
  {
  }

  lemma ReducerBag(g: Group)
    ensures P.WorkBag(WordReducer())(g) == multiset{Record(g.token, Size(|g.values|))}
  {
    assert WordReducer()(g) == [Record(g.token, Size(|g.values|))];
  }

  lemma {:induction false} CountedBag(gs: seq<Group>)
    ensures SumBag(P.WorkBag(WordReducer()), gs) == multiset(Counted(gs))
  {
    if gs != [] {
      var n := |gs| - 1;
      CountedBag(gs[..n]);
      CountedSnoc(gs);
      ReducerBag(gs[n]);
      hide Counted, P.WorkBag, WordReducer, Size;
    }
  }

  lemma SameElements(a: seq<Record>, b: seq<Record>)
    requires multiset(a) == multiset(b)
    ensures forall r :: r in a <==> r in b
  {
    assert forall r :: r in a <==> r in multiset(a);
    assert forall r :: r in b <==> r in multiset(b);
  }

  lemma OnlyOnce(b: seq<Record>, k: nat)
    requires k < |b| && forall i, j :: 0 <= i < j < |b| ==> b[i].token != b[j].token
    ensures multiset(b)[b[k]] == 1
  {
    BagOfRemove(b, k);
    var rest := b[..k] + b[k + 1..];
    assert forall i :: 0 <= i < |rest| ==> rest[i] == b[if i < k then i else i + 1];
    assert b[k] !in rest;
  }

  lemma Twice(a: seq<Record>, i: nat, j: nat)
    requires i < j < |a| && a[i] == a[j]
    ensures multiset(a)[a[i]] >= 2
  {
    BagOfRemove(a, i);
    var rest := a[..i] + a[i + 1..];
    assert rest[j - 1] == a[i];
    assert a[i] in multiset(rest);
  }

  /** Reordering records keeps their tokens distinct. */
  lemma ReorderedDistinct(a: seq<Record>, b: seq<Record>)
    requires multiset(a) == multiset(b)
    requires forall i, j :: 0 <= i < j < |b| ==> b[i].token != b[j].token
    ensures forall i, j :: 0 <= i < j < |a| ==> a[i].token != a[j].token
  {
    SameElements(a, b);
    forall i, j | 0 <= i < j < |a| ensures a[i].token != a[j].token {
      assert a[i] in b && a[j] in b;
      var k :| 0 <= k < |b| && b[k] == a[i];
      OnlyOnce(b, k);
      if a[i] == a[j] {
        Twice(a, i, j);
      }
    }
  }

  /** The number of values grouped under a word is the number of its occurrences, in any arrival order. */
  lemma ValuesAreOccurrences(files: seq<File>, pairs: seq<Record>, w: CString)
    requires multiset(pairs) == multiset(FlatMap(WordMapper(), AllLines(files)))
    ensures |ValuesOf(pairs, w)| == Occurrences(files, w)
  {
    var all := FlatMap(WordMapper(), AllLines(files));
    EmittedOncePerOccurrence(AllLines(files), w);
    ValuesOfPermutation(pairs, all, w);
    assert |multiset(ValuesOf(pairs, w))| == |ValuesOf(pairs, w)| && |multiset(ValuesOf(all, w))| == |ValuesOf(all, w)|;
  }

  lemma GroupsAreWords(files: seq<File>, pairs: seq<Record>, gs: seq<Group>)
    requires multiset(pairs) == multiset(FlatMap(WordMapper(), AllLines(files))) && Groups(gs, pairs)
    ensures WordTable(Counted(gs), files)
  {
    hide ValuesOf, Occurrences, FlatMap, Size, AllLines;
    var rs := Counted(gs);
    forall w: CString ensures |ValuesOf(pairs, w)| == Occurrences(files, w) {
      ValuesAreOccurrences(files, pairs, w);
    }
    forall w: CString | Occurrences(files, w) > 0 ensures exists r :: r in rs && r.token == w {
      var k := Find(gs, w);
      assert rs[k] in rs && rs[k].token == w;
    }
  }

  lemma ReorderedTable(rs: seq<Record>, ts: seq<Record>, files: seq<File>)
    requires multiset(rs) == multiset(ts) && WordTable(ts, files)
    ensures WordTable(rs, files)
  {
    hide Occurrences, Size;
    ReorderedDistinct(rs, ts);
    SameElements(rs, ts);
  }

  /** The reducer of word_count does not look at the order of the values. */
  lemma WordReducerIgnoresOrder()
    ensures OrderInsensitive(P.WorkBag(WordReducer()))
  {
    forall t: CString, a: seq<Blob>, b: seq<Blob> | multiset(a) == multiset(b)
      ensures P.WorkBag(WordReducer())(Group(t, a)) == P.WorkBag(WordReducer())(Group(t, b))
    {
      assert |multiset(a)| == |a| && |multiset(b)| == |b|;
      ReducerBag(Group(t, a));
      ReducerBag(Group(t, b));
    }
  }

  /** So word_count on the pipeline writes what the sequential program would. */
  lemma WordCountIsSequential(c: Config, s0: State, acts: seq<Act>)
    requires CountsWords(c) && Initial(c, s0) && Schedule(c, s0, acts) && After(c, s0, acts).main.Finished?
    ensures multiset(Decoded(After(c, s0, acts).main.file)) == multiset(Sequential(c))
  {
    hide Initial, Schedule, After, Decoded, Sequential, OrderInsensitive;
    WordReducerIgnoresOrder();
    ParallelEqualsSequential(c, s0, acts);
  }

  /** Word count is correct on every finished run. */
  lemma WordCountIsCorrect(c: Config, s0: State, acts: seq<Act>)
    requires CountsWords(c) && Initial(c, s0) && Schedule(c, s0, acts) && After(c, s0, acts).main.Finished?
    ensures WordTable(Decoded(After(c, s0, acts).main.file), c.files)
  {
    FinishedRunIsCorrect(c, s0, acts);
    hide Initial, Schedule, After, SumBag, FlatMap, Table, Nodes, RecordsIn, Groups, GroupsInSomeOrder, AllLines,
         Decoded, WordTable, Counted;
    var s := After(c, s0, acts);
    var pairs := RecordsIn(s.seen2);
    var nodes := Nodes(Table(c.layout, pairs));
    GroupsAreWords(c.files, pairs, nodes);
    CountedBag(nodes);
    ReorderedTable(Decoded(s.main.file), Counted(nodes), c.files);
  }

  // ---------------------------------------------------------------- the total

  /** The count as print_results reads it from a record. */
  ghost function CountIn(): Record -> nat { (r: Record) => if |r.payload| == 8 then FromSize(r.payload) else 0 }

  lemma {:induction false} NodesCount(table: seq<Chain>)
    ensures SumNat(Count(), Nodes(table)) == SumNat(Counts(), table)
  {
    if table != [] {
      var n := |table| - 1;
      NodesCount(table[..n]);
      NodesSnoc(table);
      SumNatAppend(Count(), Nodes(table[..n]), table[n]);
    }
  }

  lemma {:induction false} CountedAddUp(gs: seq<Group>)
    requires SumNat(Count(), gs) < LIMIT
    ensures SumNat(CountIn(), Counted(gs)) == SumNat(Count(), gs)
  {
    if gs != [] {
      var n := |gs| - 1;
      CountedAddUp(gs[..n]);
      CountedSnoc(gs);
      SizeRoundTrip(|gs[n].values|);
      hide Size, FromSize, Counted;
      var r := Record(gs[n].token, Size(|gs[n].values|));
      assert (Counted(gs[..n]) + [r])[..n] == Counted(gs[..n]);
    }
  }

  /** The counts in the output add up to the mapper's pairs_count, as long as that fits a size_t. */
  lemma CountsAddUpToPairs(c: Config, s0: State, acts: seq<Act>)
    requires CountsWords(c) && Initial(c, s0) && Schedule(c, s0, acts) && After(c, s0, acts).main.Finished?
    requires After(c, s0, acts).mp.count < LIMIT
    ensures SumNat(CountIn(), Decoded(After(c, s0, acts).main.file)) == After(c, s0, acts).mp.count
  {
    FinishedRunIsCorrect(c, s0, acts);
    hide Initial, Schedule, After, SumBag, FlatMap, Table, Nodes, RecordsIn, Groups, GroupsInSomeOrder, AllLines,
         Decoded, SumNat, Counted;
    var s := After(c, s0, acts);
    var pairs := RecordsIn(s.seen2);
    var table := Table(c.layout, pairs);
    CountedBag(Nodes(table));
    CountsAddUp(c.layout, pairs);
    NodesCount(table);
    CountedAddUp(Nodes(table));
    SumNatPermutation(CountIn(), Decoded(s.main.file), Counted(Nodes(table)));
  }

  // ---------------------------------------------------------------- what is shown

  /** The line of a word that occurs, with how often it does. */
  ghost predicate ShowsOne(l: Shown, files: seq<File>)
  {
    Occurrences(files, l.token) > 0 && l == WithCount(l.token, Occurrences(files, l.token))
  }

  /** The lines that word_count should end with: every occurring word once, with its count. */
  ghost predicate ShowsWords(shown: seq<Shown>, files: seq<File>)
  {
    && (forall i, j :: 0 <= i < j < |shown| ==> shown[i].token != shown[j].token)
    && (forall l :: l in shown <==> ShowsOne(l, files))
  }

  lemma ShownWords(rs: seq<Record>, files: seq<File>)
    requires WordTable(rs, files) && forall w: CString :: Occurrences(files, w) < LIMIT
    ensures ShowsWords(ShowAll(rs), files)
  {
    hide Occurrences, FromSize, Size;
    var shown := ShowAll(rs);
    forall r | r in rs ensures Show(r) == WithCount(r.token, Occurrences(files, r.token)) {
      SizeRoundTrip(Occurrences(files, r.token));
    }
    forall l | l in shown ensures ShowsOne(l, files) {
      var i :| 0 <= i < |shown| && shown[i] == l;
      assert rs[i] in rs;
    }
    forall l | ShowsOne(l, files) ensures l in shown {
      var r :| r in rs && r.token == l.token;
      var i :| 0 <= i < |rs| && rs[i] == r;
      assert shown[i] == l;
    }
  }

  /** The example as a whole: print_results on the output file of any finished run shows the word counts. */
  method PrintWordCounts(file: seq<Byte>, ghost c: Config, ghost s0: State, ghost acts: seq<Act>)
      returns (shown: seq<Shown>)
    requires CountsWords(c) && Initial(c, s0) && Schedule(c, s0, acts)
    requires After(c, s0, acts).main == Finished(file) && forall w: CString :: Occurrences(c.files, w) < LIMIT
    ensures ShowsWords(shown, c.files)
  {
    WordCountIsCorrect(c, s0, acts);
    FinishedRunIsCorrect(c, s0, acts);
    hide Initial, Schedule, After, SumBag, FlatMap, Table, Nodes, RecordsIn, Groups, GroupsInSomeOrder, AllLines,
         WordTable,
         ShowsWords, Decoded, Whole, FileOf;
    FilesAreWhole(Decoded(file));
    shown := PrintResults(file);
    ShownWords(Decoded(file), c.files);
  }
}
