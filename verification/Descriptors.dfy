/** The open pipe ends of the three processes (src/core.c:50-518): every process closes, duplicates and forks in a fixed
    order, in any interleaving with the others. A pipe is at its end for its reader when no process at all still holds
    a descriptor of its write end. */
module Descriptors {

  datatype Pipe = ToMapper | ToReducer | ToMain

  /** What a descriptor stands for: an end of a pipe, the log file, or something that was open before. */
  datatype End = ReadEnd(pipe: Pipe) | WriteEnd(pipe: Pipe) | Log | Other

  predicate OfPipe(e: End) { e.ReadEnd? || e.WriteEnd? }

  type Table = map<nat, End>

  datatype Who = Main | Mapper | Reducer

  /** The numbers that pipe(2) returned, in the order of the three calls. */
  datatype Fds = Fds(mapperIn: nat, mapperFeed: nat, reducerIn: nat, reducerFeed: nat, mainIn: nat, mainFeed: nat)

  /** Send and Drain are the work after the set-up: Main sends its input; a process reads a pipe to its end. */
  datatype Instr =
    | Fork(child: Who) | Close(fd: nat) | Dup2(from: nat, to: nat) | Send | Drain(pipe: Pipe) | Wait(child: Who) | Leave

  function MainScript(x: Fds): (s: seq<Instr>)
    ensures |s| == 12
  {
    [Fork(Mapper), Fork(Reducer), Close(x.mapperIn), Close(x.reducerIn), Close(x.reducerFeed), Close(x.mainFeed),
     Send, Close(x.mapperFeed), Drain(ToMain), Close(x.mainIn), Wait(Mapper), Wait(Reducer)]
  }

  function MapperScript(x: Fds): (s: seq<Instr>)
    ensures |s| == 10
  {
    [Close(x.mapperFeed), Close(x.reducerIn), Close(x.mainIn), Close(x.mainFeed),
     Dup2(x.mapperIn, 0), Close(x.mapperIn), Dup2(x.reducerFeed, 1), Close(x.reducerFeed), Drain(ToMapper), Leave]
  }

  function ReducerScript(x: Fds): (s: seq<Instr>)
    ensures |s| == 10
  {
    [Close(x.mapperIn), Close(x.mapperFeed), Close(x.reducerFeed), Close(x.mainIn),
     Dup2(x.reducerIn, 0), Close(x.reducerIn), Dup2(x.mainFeed, 1), Close(x.mainFeed), Drain(ToReducer), Leave]
  }

  function Script(x: Fds, w: Who): seq<Instr>
  {
    match w case Main => MainScript(x) case Mapper => MapperScript(x) case Reducer => ReducerScript(x)
  }

  /** What a system call does to the caller's own table; close and dup2 of a closed descriptor fail. */
  function Exec(t: Table, i: Instr): Table
  {
    match i
    case Close(fd) => t - {fd}
    case Dup2(from, to) => if from in t then t[to := t[from]] else t
    case Leave => map[]
    case _ => t
  }

  predicate Succeeds(t: Table, i: Instr)
  {
    (i.Close? ==> i.fd in t) && (i.Dup2? ==> i.from in t)
  }

  predicate Distinct(x: Fds)
  {
    && x.mapperIn !in {x.mapperFeed, x.reducerIn, x.reducerFeed, x.mainIn, x.mainFeed}
    && x.mapperFeed !in {x.reducerIn, x.reducerFeed, x.mainIn, x.mainFeed}
    && x.reducerIn !in {x.reducerFeed, x.mainIn, x.mainFeed}
    && x.reducerFeed !in {x.mainIn, x.mainFeed} && x.mainIn != x.mainFeed
  }

  /** Main's table once the three pipes are open. */
  ghost predicate Opened(x: Fds, t: Table)
  {
    && Distinct(x)
    && x.mapperIn in t && t[x.mapperIn] == ReadEnd(ToMapper)
    && x.mapperFeed in t && t[x.mapperFeed] == WriteEnd(ToMapper)
    && x.reducerIn in t && t[x.reducerIn] == ReadEnd(ToReducer)
    && x.reducerFeed in t && t[x.reducerFeed] == WriteEnd(ToReducer)
    && x.mainIn in t && t[x.mainIn] == ReadEnd(ToMain)
    && x.mainFeed in t && t[x.mainFeed] == WriteEnd(ToMain)
    && (forall fd :: fd in t && OfPipe(t[fd]) ==>
          fd in {x.mapperIn, x.mapperFeed, x.reducerIn, x.reducerFeed, x.mainIn, x.mainFeed})
  }

  /** `pc` instructions done; a child that has not been forked has no table; `reaped` once Main has waited for it. */
  datatype Process = Process(born: bool, pc: nat, table: Table, reaped: bool)

  datatype State = State(main: Process, mapper: Process, reducer: Process)

  function Of(s: State, w: Who): Process
  {
    match w case Main => s.main case Mapper => s.mapper case Reducer => s.reducer
  }

  function With(s: State, w: Who, p: Process): State
  {
    match w case Main => s.(main := p) case Mapper => s.(mapper := p) case Reducer => s.(reducer := p)
  }

  /** All descriptors of an end, in all processes. */
  ghost predicate HeldAt(s: State, e: End, w: Who, fd: nat)
  {
    fd in Of(s, w).table && Of(s, w).table[fd] == e
  }

  ghost predicate Held(s: State, e: End)
  {
    exists w, fd :: HeldAt(s, e, w, fd)
  }

  /** The reader of an empty pipe sees end of file. */
  ghost predicate AtEof(s: State, p: Pipe)
  {
    !Held(s, WriteEnd(p))
  }

  predicate Ended(x: Fds, s: State, w: Who) { Of(s, w).pc >= |Script(x, w)| }

  /** A step of one process; a read loop ends at end of file, a wait when the child has exited. */
  ghost predicate Enabled(x: Fds, s: State, w: Who)
  {
    var p := Of(s, w);
    && p.born && p.pc < |Script(x, w)|
    && match Script(x, w)[p.pc]
       case Drain(pipe) => AtEof(s, pipe)
       case Wait(child) => Ended(x, s, child)
       case _ => true
  }

  ghost function Apply(x: Fds, s: State, w: Who): State
    requires Enabled(x, s, w)
  {
    var p := Of(s, w);
    var i := Script(x, w)[p.pc];
    var s' := With(s, w, p.(pc := p.pc + 1, table := Exec(p.table, i)));
    if i.Fork? then With(s', i.child, Process(true, 0, p.table, false))
    else if i.Wait? then With(s', i.child, Of(s', i.child).(reaped := true))
    else s'
  }

  ghost predicate Initial(x: Fds, s: State)
  {
    s.main.born && s.main.pc == 0 && Opened(x, s.main.table) && s.mapper == s.reducer == Process(false, 0, map[], false)
  }

  // ---------------------------------------------------------------- when the set-up puts the ends in place

  /** Redirecting loses nothing: no end that a child keeps sits where another one is to go or has just gone. */
  predicate Usable(x: Fds)
  {
    x.mapperIn != 0 && x.reducerIn != 0 && x.reducerFeed !in {0, 1} && x.mainFeed !in {0, 1}
  }

  function Run(t: Table, script: seq<Instr>, n: nat): Table
    requires n <= |script|
  {
    if n == 0 then t else Exec(Run(t, script, n - 1), script[n - 1])
  }

  predicate Redirected(t: Table, input: Pipe, output: Pipe)
  {
    0 in t && t[0] == ReadEnd(input) && 1 in t && t[1] == WriteEnd(output)
  }

  /** The four last calls of a child's set-up, on the table they find. */
  function Redirect(t: Table, input: nat, output: nat): Table
  {
    Exec(Exec(Exec(Exec(t, Dup2(input, 0)), Close(input)), Dup2(output, 1)), Close(output))
  }

  lemma RedirectIsRight(t: Table, input: nat, output: nat, p: Pipe, q: Pipe)
    requires input != output && input in t && output in t && t[input] == ReadEnd(p) && t[output] == WriteEnd(q)
    ensures Redirected(Redirect(t, input, output), p, q) <==> input != 0 && output !in {0, 1}
  {
    var t1 := Exec(t, Dup2(input, 0));
    var t2 := Exec(t1, Close(input));
    var t3 := Exec(t2, Dup2(output, 1));
    assert Redirect(t, input, output) == Exec(t3, Close(output));
    if input == 0 {
      assert 0 !in t2;
      assert 0 !in Redirect(t, input, output);
    } else if output == 0 {
      assert 0 !in Redirect(t, input, output);
    }
  }

  lemma Unfold(t: Table, s: seq<Instr>, n: nat)
    requires n < |s|
    ensures Run(t, s, n + 1) == Exec(Run(t, s, n), s[n])
  {
  }

  lemma SetUpIs(x: Fds, t: Table)
    ensures Run(t, MapperScript(x), 8)
         == Redirect(t - {x.mapperFeed} - {x.reducerIn} - {x.mainIn} - {x.mainFeed}, x.mapperIn, x.reducerFeed)
    ensures Run(t, ReducerScript(x), 8)
         == Redirect(t - {x.mapperIn} - {x.mapperFeed} - {x.reducerFeed} - {x.mainIn}, x.reducerIn, x.mainFeed)
  {
    hide Run;
    var m, r := MapperScript(x), ReducerScript(x);
    assert Run(t, m, 0) == t == Run(t, r, 0) by { RunNothing(t, m); RunNothing(t, r); }
    Unfold(t, m, 0); Unfold(t, m, 1); Unfold(t, m, 2); Unfold(t, m, 3);
    Unfold(t, m, 4); Unfold(t, m, 5); Unfold(t, m, 6); Unfold(t, m, 7);
    Unfold(t, r, 0); Unfold(t, r, 1); Unfold(t, r, 2); Unfold(t, r, 3);
    Unfold(t, r, 4); Unfold(t, r, 5); Unfold(t, r, 6); Unfold(t, r, 7);
  }

  lemma RunNothing(t: Table, s: seq<Instr>)
    ensures Run(t, s, 0) == t
  {
  }

  /** Both children find their ends at descriptors 0 and 1 exactly when the numbers are usable. */
  lemma SetUpWorksIffUsable(x: Fds, t: Table)
    requires Opened(x, t)
    ensures && Redirected(Run(t, MapperScript(x), 8), ToMapper, ToReducer)
            && Redirected(Run(t, ReducerScript(x), 8), ToReducer, ToMain)
            <==> Usable(x)
  {
    SetUpIs(x, t);
    hide Run;
    var m := t - {x.mapperFeed} - {x.reducerIn} - {x.mainIn} - {x.mainFeed};
    var r := t - {x.mapperIn} - {x.mapperFeed} - {x.reducerFeed} - {x.mainIn};
    RedirectIsRight(m, x.mapperIn, x.reducerFeed, ToMapper, ToReducer);
    RedirectIsRight(r, x.reducerIn, x.mainFeed, ToReducer, ToMain);
  }

  // ---------------------------------------------------------------- which numbers pipe(2) hands out

  lemma FewerAbove(t: Table, k: nat)
    requires k in t
    ensures |set fd | fd in t && fd >= k + 1| < |set fd | fd in t && fd >= k|
  {
    var above, from := set fd | fd in t && fd >= k + 1, set fd | fd in t && fd >= k;
    assert from == above + {k};
  }

  /** The lowest free number from k on. */
  ghost function FreeFrom(t: Table, k: nat): (fd: nat)
    ensures fd >= k && fd !in t && forall g :: k <= g < fd ==> g in t
    decreases |set fd | fd in t && fd >= k|
  {
    if k !in t then k
    else
      FewerAbove(t, k);
      FreeFrom(t, k + 1)
  }

  /** pipe(2): the lowest free number for the read end, the next one for the write end. */
  ghost function PipeNumbers(t: Table): (fds: (nat, nat))
    ensures fds.0 < fds.1 && fds.0 !in t && fds.1 !in t
    ensures forall g :: 0 <= g < fds.1 && g != fds.0 ==> g in t
  {
    var r := FreeFrom(t, 0);
    (r, FreeFrom(t, r + 1))
  }

  ghost function OpenPipe(t: Table, p: Pipe): Table
  {
    t[PipeNumbers(t).0 := ReadEnd(p)][PipeNumbers(t).1 := WriteEnd(p)]
  }

  /** The three calls at the head of spawn_processes, on the table it is called with. */
  ghost function Numbers(t0: Table): Fds
  {
    var t1 := OpenPipe(t0, ToMapper);
    var a, b, c := PipeNumbers(t0), PipeNumbers(t1), PipeNumbers(OpenPipe(t1, ToReducer));
    Fds(a.0, a.1, b.0, b.1, c.0, c.1)
  }

  ghost function OpenPipes(t0: Table): Table
  {
    OpenPipe(OpenPipe(OpenPipe(t0, ToMapper), ToReducer), ToMain)
  }

  /** The numbers of a later pipe lie above those of an earlier one. */
  lemma LaterIsHigher(t: Table, p: Pipe)
    ensures PipeNumbers(OpenPipe(t, p)).0 > PipeNumbers(t).1
  {
    var fds, t' := PipeNumbers(t), OpenPipe(t, p);
    assert forall g :: 0 <= g <= fds.1 ==> g in t';
  }

  lemma PipesAreOpened(t0: Table)
    requires forall fd :: fd in t0 ==> !OfPipe(t0[fd])
    ensures var x := Numbers(t0);
            && Opened(x, OpenPipes(t0))
            && x.mapperIn < x.mapperFeed < x.reducerIn < x.reducerFeed < x.mainIn < x.mainFeed
            && (x.mapperIn == 0 <==> 0 !in t0)
  {
    var t1 := OpenPipe(t0, ToMapper);
    LaterIsHigher(t0, ToMapper);
    LaterIsHigher(t1, ToReducer);
  }

  /** The set-up of both children works if and only if descriptor 0 was taken when spawn_processes was called. */
  lemma SetUpWorksIffStdinWasOpen(t0: Table)
    requires forall fd :: fd in t0 ==> !OfPipe(t0[fd])
    ensures var x, t := Numbers(t0), OpenPipes(t0);
            && Redirected(Run(t, MapperScript(x), 8), ToMapper, ToReducer)
            && Redirected(Run(t, ReducerScript(x), 8), ToReducer, ToMain)
            <==> 0 in t0
  {
    hide Run, Redirected, Opened, Numbers, OpenPipes;
    PipesAreOpened(t0);
    SetUpWorksIffUsable(Numbers(t0), OpenPipes(t0));
  }

  /** Otherwise the mapper closes the very descriptor it was to read from: it is left without a standard input. */
  lemma MapperLosesItsInput(t0: Table)
    requires (forall fd :: fd in t0 ==> !OfPipe(t0[fd])) && 0 !in t0
    ensures 0 !in Run(OpenPipes(t0), MapperScript(Numbers(t0)), 8)
  {
    var x, t := Numbers(t0), OpenPipes(t0);
    PipesAreOpened(t0);
    SetUpIs(x, t);
    hide Run, Numbers, OpenPipes;
  }

  /** mr_run opens the log file, before the pipes, at the lowest free number. */
  ghost function OpenLog(t: Table): Table
  {
    t[FreeFrom(t, 0) := Log]
  }

  /** A child finds its pipes at 0 and 1, and can still write its log. */
  ghost predicate ChildWorks(t: Table, input: Pipe, output: Pipe, log: nat)
  {
    Redirected(t, input, output) && log in t && t[log] == Log
  }

  lemma RedirectKeepsOthers(t: Table, input: nat, output: nat, fd: nat)
    requires fd in t && fd !in {input, output, 0, 1}
    ensures fd in Redirect(t, input, output) && Redirect(t, input, output)[fd] == t[fd]
  {
  }

  lemma LogIsKeptAbove(x: Fds, t: Table, log: nat)
    requires Opened(x, t) && log in t && t[log] == Log && log !in {0, 1}
    ensures log in Run(t, MapperScript(x), 8) && Run(t, MapperScript(x), 8)[log] == Log
    ensures log in Run(t, ReducerScript(x), 8) && Run(t, ReducerScript(x), 8)[log] == Log
  {
    SetUpIs(x, t);
    hide Run;
    RedirectKeepsOthers(t - {x.mapperFeed} - {x.reducerIn} - {x.mainIn} - {x.mainFeed}, x.mapperIn, x.reducerFeed, log);
    RedirectKeepsOthers(t - {x.mapperIn} - {x.mapperFeed} - {x.reducerFeed} - {x.mainIn}, x.reducerIn, x.mainFeed, log);
  }

  /** What a caller of mr_run can check: both children have their pipes and their log if and only if descriptors 0 and
      1 were open. Otherwise the log file takes the number that a child's pipe end is then moved onto. */
  lemma ChildrenWorkIffStandardStreamsOpen(t: Table)
    requires forall fd :: fd in t ==> t[fd] == Other
    ensures var log, t0 := FreeFrom(t, 0), OpenLog(t);
            var x, t1 := Numbers(t0), OpenPipes(t0);
            && ChildWorks(Run(t1, MapperScript(x), 8), ToMapper, ToReducer, log)
            && ChildWorks(Run(t1, ReducerScript(x), 8), ToReducer, ToMain, log)
            <==> 0 in t && 1 in t
  {
    var log, t0 := FreeFrom(t, 0), OpenLog(t);
    SetUpWorksIffStdinWasOpen(t0);
    PipesAreOpened(t0);
    assert log in OpenPipes(t0) && OpenPipes(t0)[log] == Log;
    hide Run, Opened, Numbers, OpenPipes;
    if log !in {0, 1} {
      LogIsKeptAbove(Numbers(t0), OpenPipes(t0), log);
    }
  }

  // ---------------------------------------------------------------- invariant

  /** The process holds this end at this descriptor and nowhere else, or nowhere if `held` is false. */
  ghost predicate Only(t: Table, e: End, held: bool, fd: nat)
  {
    && (held ==> fd in t && t[fd] == e)
    && (forall g :: g in t && t[g] == e ==> held && g == fd)
  }

  ghost predicate MainAt(x: Fds, k: nat, t: Table)
  {
    && Only(t, ReadEnd(ToMapper), k < 3, x.mapperIn) && Only(t, WriteEnd(ToMapper), k < 8, x.mapperFeed)
    && Only(t, ReadEnd(ToReducer), k < 4, x.reducerIn) && Only(t, WriteEnd(ToReducer), k < 5, x.reducerFeed)
    && Only(t, ReadEnd(ToMain), k < 10, x.mainIn) && Only(t, WriteEnd(ToMain), k < 6, x.mainFeed)
  }

  /** While an end is being moved it is open twice. */
  ghost predicate Moving(t: Table, e: End, k: nat, from: nat, to: nat, dup: nat)
  {
    && (k <= dup ==> from in t && t[from] == e)
    && (dup < k < 10 ==> to in t && t[to] == e)
    && (k == dup + 1 ==> from in t && t[from] == e)
    && (forall g :: g in t && t[g] == e ==> (g == from && k <= dup + 1) || (g == to && dup < k < 10))
  }

  ghost predicate MapperAt(x: Fds, k: nat, t: Table)
  {
    && Only(t, WriteEnd(ToMapper), k < 1, x.mapperFeed) && Only(t, ReadEnd(ToReducer), k < 2, x.reducerIn)
    && Only(t, ReadEnd(ToMain), k < 3, x.mainIn) && Only(t, WriteEnd(ToMain), k < 4, x.mainFeed)
    && Moving(t, ReadEnd(ToMapper), k, x.mapperIn, 0, 4) && Moving(t, WriteEnd(ToReducer), k, x.reducerFeed, 1, 6)
  }

  ghost predicate ReducerAt(x: Fds, k: nat, t: Table)
  {
    && Only(t, ReadEnd(ToMapper), k < 1, x.mapperIn) && Only(t, WriteEnd(ToMapper), k < 2, x.mapperFeed)
    && Only(t, WriteEnd(ToReducer), k < 3, x.reducerFeed) && Only(t, ReadEnd(ToMain), k < 4, x.mainIn)
    && Moving(t, ReadEnd(ToReducer), k, x.reducerIn, 0, 4) && Moving(t, WriteEnd(ToMain), k, x.mainFeed, 1, 6)
  }

  ghost predicate Inv(x: Fds, s: State)
  {
    && Usable(x) && Distinct(x)
    && s.main.born && s.main.pc <= 12 && MainAt(x, s.main.pc, s.main.table)
    && (s.mapper.born <==> s.main.pc >= 1) && (s.reducer.born <==> s.main.pc >= 2)
    && s.mapper.pc <= 10 && s.reducer.pc <= 10
    && (if s.mapper.born then MapperAt(x, s.mapper.pc, s.mapper.table) else s.mapper == Process(false, 0, map[], false))
    && (if s.reducer.born then ReducerAt(x, s.reducer.pc, s.reducer.table)
        else s.reducer == Process(false, 0, map[], false))
    && (s.mapper.reaped <==> s.main.pc > 10) && (s.reducer.reaped <==> s.main.pc > 11)
    && (s.mapper.pc > 8 ==> s.main.pc > 7)
    && (s.reducer.pc > 8 ==> s.mapper.pc == 10)
    && (s.main.pc > 8 ==> s.reducer.pc == 10)
  }

  lemma InitialInv(x: Fds, s: State)
    requires Initial(x, s) && Usable(x)
    ensures Inv(x, s)
  {
  }

  lemma MainKeeps(x: Fds, k: nat, t: Table)
    requires Distinct(x) && k < 12 && MainAt(x, k, t)
    ensures Succeeds(t, MainScript(x)[k]) && MainAt(x, k + 1, Exec(t, MainScript(x)[k]))
  {
  }

  lemma MapperKeeps(x: Fds, k: nat, t: Table)
    requires Distinct(x) && Usable(x) && k < 10 && MapperAt(x, k, t)
    ensures Succeeds(t, MapperScript(x)[k]) && MapperAt(x, k + 1, Exec(t, MapperScript(x)[k]))
  {
  }

  lemma ReducerKeeps(x: Fds, k: nat, t: Table)
    requires Distinct(x) && Usable(x) && k < 10 && ReducerAt(x, k, t)
    ensures Succeeds(t, ReducerScript(x)[k]) && ReducerAt(x, k + 1, Exec(t, ReducerScript(x)[k]))
  {
  }

  lemma StepInv(x: Fds, s: State, w: Who)
    requires Inv(x, s) && Enabled(x, s, w)
    ensures Inv(x, Apply(x, s, w))
  {
    hide Only, Moving;
    match w
    case Main => MainStep(x, s);
    case Mapper => MapperStep(x, s);
    case Reducer => ReducerStep(x, s);
  }

  lemma Inherits(x: Fds, k: nat, t: Table)
    requires MainAt(x, k, t) && k <= 2
    ensures MapperAt(x, 0, t) && ReducerAt(x, 0, t)
  {
  }

  /** No reader sees end of file before the one process that is to write has closed its end. */
  lemma EofIsNotPremature(x: Fds, s: State)
    requires Inv(x, s)
    ensures s.mapper.born && AtEof(s, ToMapper) ==> s.main.pc >= 8
    ensures s.reducer.born && AtEof(s, ToReducer) ==> s.mapper.pc == 10
    ensures s.reducer.born && AtEof(s, ToMain) ==> s.reducer.pc == 10
  {
    if s.main.pc < 8 {
      assert HeldAt(s, WriteEnd(ToMapper), Main, x.mapperFeed);
    }
    if s.mapper.born && s.mapper.pc < 10 {
      assert HeldAt(s, WriteEnd(ToReducer), Mapper, if s.mapper.pc <= 6 then x.reducerFeed else 1);
    }
    if s.reducer.born && s.reducer.pc < 10 {
      assert HeldAt(s, WriteEnd(ToMain), Reducer, if s.reducer.pc <= 6 then x.mainFeed else 1);
    }
  }

  lemma MainStep(x: Fds, s: State)
    requires Inv(x, s) && Enabled(x, s, Main)
    ensures Inv(x, Apply(x, s, Main))
  {
    EofIsNotPremature(x, s);
    MainKeeps(x, s.main.pc, s.main.table);
    if s.main.pc <= 1 {
      Inherits(x, s.main.pc, s.main.table);
    }
    hide MainAt, MapperAt, ReducerAt, AtEof, Distinct, Usable;
  }

  lemma MapperStep(x: Fds, s: State)
    requires Inv(x, s) && Enabled(x, s, Mapper)
    ensures Inv(x, Apply(x, s, Mapper))
  {
    EofIsNotPremature(x, s);
    MapperKeeps(x, s.mapper.pc, s.mapper.table);
    hide MainAt, MapperAt, ReducerAt, AtEof, Distinct, Usable;
  }

  lemma ReducerStep(x: Fds, s: State)
    requires Inv(x, s) && Enabled(x, s, Reducer)
    ensures Inv(x, Apply(x, s, Reducer))
  {
    EofIsNotPremature(x, s);
    ReducerKeeps(x, s.reducer.pc, s.reducer.table);
    hide MainAt, MapperAt, ReducerAt, AtEof, Distinct, Usable;
  }

  // ---------------------------------------------------------------- runs

  ghost predicate Schedule(x: Fds, s: State, ws: seq<Who>)
    decreases |ws|
  {
    ws == [] || (Enabled(x, s, ws[0]) && Schedule(x, Apply(x, s, ws[0]), ws[1..]))
  }

  ghost function After(x: Fds, s: State, ws: seq<Who>): State
    requires Schedule(x, s, ws)
    decreases |ws|
  {
    if ws == [] then s else After(x, Apply(x, s, ws[0]), ws[1..])
  }

  lemma {:induction false} ScheduleInv(x: Fds, s: State, ws: seq<Who>)
    requires Inv(x, s) && Schedule(x, s, ws)
    ensures Inv(x, After(x, s, ws))
    decreases |ws|
  {
    hide Inv, Enabled, Apply;
    if ws != [] {
      StepInv(x, s, ws[0]);
      ScheduleInv(x, Apply(x, s, ws[0]), ws[1..]);
    }
  }

  ghost predicate Reachable(x: Fds, s: State)
  {
    exists s0, ws :: Initial(x, s0) && Schedule(x, s0, ws) && s == After(x, s0, ws)
  }

  lemma ReachableInv(x: Fds, s: State)
    requires Usable(x) && Reachable(x, s)
    ensures Inv(x, s)
  {
    var s0, ws :| Initial(x, s0) && Schedule(x, s0, ws) && s == After(x, s0, ws);
    InitialInv(x, s0);
    ScheduleInv(x, s0, ws);
  }

  predicate SetUp(s: State)
  {
    s.main.pc >= 6 && s.mapper.pc >= 8 && s.reducer.pc >= 8
  }

  /** Once set-up is done, each pipe has one write end and one read end open, in the intended processes; each for as
      long as that process keeps it. */
  lemma OneWriterOneReader(x: Fds, s: State, w: Who, fd: nat)
    requires Usable(x) && Reachable(x, s) && SetUp(s)
    ensures HeldAt(s, WriteEnd(ToMapper), w, fd) <==> w == Main && fd == x.mapperFeed && s.main.pc < 8
    ensures HeldAt(s, ReadEnd(ToMapper), w, fd) <==> w == Mapper && fd == 0 && s.mapper.pc < 10
    ensures HeldAt(s, WriteEnd(ToReducer), w, fd) <==> w == Mapper && fd == 1 && s.mapper.pc < 10
    ensures HeldAt(s, ReadEnd(ToReducer), w, fd) <==> w == Reducer && fd == 0 && s.reducer.pc < 10
    ensures HeldAt(s, WriteEnd(ToMain), w, fd) <==> w == Reducer && fd == 1 && s.reducer.pc < 10
    ensures HeldAt(s, ReadEnd(ToMain), w, fd) <==> w == Main && fd == x.mainIn && s.main.pc < 10
  {
    ReachableInv(x, s);
    hide Reachable, Usable, Distinct;
  }

  /** A reader sees end of file exactly when its one writer has closed its end or exited. */
  lemma EofIffWriterDone(x: Fds, s: State)
    requires Usable(x) && Reachable(x, s) && SetUp(s)
    ensures AtEof(s, ToMapper) <==> s.main.pc >= 8
    ensures AtEof(s, ToReducer) <==> s.mapper.pc == 10
    ensures AtEof(s, ToMain) <==> s.reducer.pc == 10
  {
    ReachableInv(x, s);
    EofIsNotPremature(x, s);
    hide Inv;
    forall w, fd ensures HeldAt(s, WriteEnd(ToMapper), w, fd) ==> s.main.pc < 8 {
      OneWriterOneReader(x, s, w, fd);
    }
    forall w, fd ensures HeldAt(s, WriteEnd(ToReducer), w, fd) ==> s.mapper.pc < 10 {
      OneWriterOneReader(x, s, w, fd);
    }
    forall w, fd ensures HeldAt(s, WriteEnd(ToMain), w, fd) ==> s.reducer.pc < 10 {
      OneWriterOneReader(x, s, w, fd);
    }
  }

  /** At every point of every run: no set-up call meets a closed descriptor, and whoever writes has a reader. */
  lemma CallsSucceed(x: Fds, s: State, w: Who)
    requires Usable(x) && Reachable(x, s) && Of(s, w).born && Of(s, w).pc < |Script(x, w)|
    ensures Succeeds(Of(s, w).table, Script(x, w)[Of(s, w).pc])
  {
    ReachableInv(x, s);
    match w
    case Main => MainKeeps(x, s.main.pc, s.main.table);
    case Mapper => MapperKeeps(x, s.mapper.pc, s.mapper.table);
    case Reducer => ReducerKeeps(x, s.reducer.pc, s.reducer.table);
  }

  lemma WritersHaveReaders(x: Fds, s: State)
    requires Usable(x) && Reachable(x, s)
    ensures s.main.pc < 8 ==> Held(s, ReadEnd(ToMapper))
    ensures s.mapper.pc < 10 ==> Held(s, ReadEnd(ToReducer))
    ensures s.reducer.pc < 10 ==> Held(s, ReadEnd(ToMain))
  {
    ReachableInv(x, s);
    hide Reachable;
    if s.main.pc < 3 {
      assert HeldAt(s, ReadEnd(ToMapper), Main, x.mapperIn);
    } else if s.main.pc < 8 {
      assert HeldAt(s, ReadEnd(ToMapper), Mapper, if s.mapper.pc <= 4 then x.mapperIn else 0);
    }
    if s.main.pc < 4 {
      assert HeldAt(s, ReadEnd(ToReducer), Main, x.reducerIn);
    } else if s.mapper.pc < 10 {
      assert HeldAt(s, ReadEnd(ToReducer), Reducer, if s.reducer.pc <= 4 then x.reducerIn else 0);
    }
    if s.reducer.pc < 10 {
      assert HeldAt(s, ReadEnd(ToMain), Main, x.mainIn);
    }
  }

  /** End of file travels down the pipeline: until Main has waited for both children, somebody can step. */
  lemma NeverStuck(x: Fds, s: State) returns (w: Who)
    requires Usable(x) && Reachable(x, s) && s.main.pc < 12
    ensures Enabled(x, s, w)
  {
    ReachableInv(x, s);
    if s.main.pc < 8 || s.main.pc == 9 {
      w := Main;
    } else if s.mapper.pc < 8 || s.mapper.pc == 9 {
      w := Mapper;
    } else if s.reducer.pc < 8 || s.reducer.pc == 9 {
      w := Reducer;
    } else {
      EofIffWriterDone(x, s);
      hide AtEof, MainAt, MapperAt, ReducerAt, Reachable;
      w := if s.mapper.pc == 8 then Mapper else if s.reducer.pc == 8 then Reducer else Main;
    }
  }

  /** What a process waits for, and nothing else: a read loop for the last write end of its pipe to be closed by whoever
      holds it, Main's waits for the exit of the child. */
  lemma WaitsFor(x: Fds, s: State, w: Who)
    requires Of(s, w).born && Of(s, w).pc < |Script(x, w)|
    ensures var i := Script(x, w)[Of(s, w).pc];
            && (i.Drain? ==> (Enabled(x, s, w) <==> forall v, fd :: !HeldAt(s, WriteEnd(i.pipe), v, fd)))
            && (i.Wait? ==> (Enabled(x, s, w) <==> Of(s, i.child).pc >= |Script(x, i.child)|))
            && (!i.Drain? && !i.Wait? ==> Enabled(x, s, w))
  {
    hide MainScript, MapperScript, ReducerScript;
  }

  /** At every point of every run: whoever sends holds a write end of its pipe, and whoever reads a pipe to its end
      holds a read end of it. */
  lemma EndsInUse(x: Fds, s: State, w: Who)
    requires Usable(x) && Reachable(x, s) && Of(s, w).born && Of(s, w).pc < |Script(x, w)|
    ensures var i := Script(x, w)[Of(s, w).pc];
            && (i.Send? ==> exists fd :: HeldAt(s, WriteEnd(ToMapper), w, fd))
            && (i.Drain? ==> exists fd :: HeldAt(s, ReadEnd(i.pipe), w, fd))
            && (i.Drain? && w == Mapper ==> HeldAt(s, ReadEnd(ToMapper), w, 0) && HeldAt(s, WriteEnd(ToReducer), w, 1))
            && (i.Drain? && w == Reducer ==> HeldAt(s, ReadEnd(ToReducer), w, 0) && HeldAt(s, WriteEnd(ToMain), w, 1))
  {
    ReachableInv(x, s);
    hide Reachable, Distinct, Usable;
    match w
    case Main =>
      assert s.main.pc == 6 ==> HeldAt(s, WriteEnd(ToMapper), Main, x.mapperFeed);
      assert s.main.pc == 8 ==> HeldAt(s, ReadEnd(ToMain), Main, x.mainIn);
    case Mapper => assert s.mapper.pc == 8 ==> HeldAt(s, ReadEnd(ToMapper), Mapper, 0);
    case Reducer => assert s.reducer.pc == 8 ==> HeldAt(s, ReadEnd(ToReducer), Reducer, 0);
  }

  /** When Main is done, both children have exited and Main has waited for each of them. */
  lemma MainReapsBoth(x: Fds, s: State)
    requires Usable(x) && Reachable(x, s) && s.main.pc >= |MainScript(x)|
    ensures Ended(x, s, Mapper) && s.mapper.reaped && Ended(x, s, Reducer) && s.reducer.reaped
  {
    ReachableInv(x, s);
  }

  function Steps(s: State): nat { s.main.pc + s.mapper.pc + s.reducer.pc }

  lemma StepCounts(x: Fds, s: State, w: Who)
    requires Inv(x, s) && Enabled(x, s, w)
    ensures Steps(Apply(x, s, w)) == Steps(s) + 1
  {
    hide MainAt, MapperAt, ReducerAt, AtEof, Exec, Usable, Distinct;
  }

  /** And no run takes more than the steps of the three scripts. */
  lemma {:induction false} RunsEnd(x: Fds, s: State, ws: seq<Who>)
    requires Inv(x, s) && Schedule(x, s, ws)
    ensures |ws| + Steps(s) == Steps(After(x, s, ws)) <= 32
    decreases |ws|
  {
    if ws != [] {
      StepInv(x, s, ws[0]);
      StepCounts(x, s, ws[0]);
      hide Inv, Enabled, Apply;
      RunsEnd(x, Apply(x, s, ws[0]), ws[1..]);
    }
  }
}
