/** The three processes as one step system, in the order of operations of src/core.c: Main sends all its input,
    closes the pipe, then receives all output; the mapper's controller feeds lines to its workers until EOF; the
    reducer's controller collects pairs to EOF and only then feeds the groups to its workers. Every read and write
    is partial, every pipe and queue is bounded. */
module Pipeline {
  import opened Collections
  import opened Wire
  import opened Pipes
  import opened Lines
  import opened Grouping
  import opened Output
  import M = Monitor
  import P = Pool

  /** `units` are the files as Main sends them, with whatever padding bytes; the user functions return what they
      emit, in order, and always return 0. */
  datatype Config = Config(
    files: seq<File>, units: seq<Unit>, layout: Layout,
    mapper: FileLine -> seq<Record>, reducer: Group -> seq<Record>)

  ghost predicate ValidConfig(c: Config)
  {
    Sends(c.units, c.files) && c.layout.size > 0
  }

  datatype Main =
    | Sending(rest: seq<Byte>)
    | Receiving(buf: seq<Byte>, file: seq<Byte>)
    | AwaitMapper(file: seq<Byte>)
    | AwaitReducer(file: seq<Byte>)
    | Finished(file: seq<Byte>)

  /** The mapper's controller: reading a unit, inside mr_queue_push with a line, about to close, joining, exited. */
  datatype MapperCtl =
    | Reading(cur: Cursor, buf: seq<Byte>)
    | Handing(cur: Cursor, line: FileLine)
    | Closing
    | Joining
    | Exited

  /** The reducer's controller: collecting, pushing the nodes still to go, joining, exited. */
  datatype ReducerCtl =
    | Collecting(buf: seq<Byte>, table: seq<Chain>)
    | Pushing(todo: seq<Group>)
    | Reaping
    | Ended

  /** `input`, `mp.out` and `rp.out` are the three pipes; seen1, seen2 and seen3 record the units their readers have
      completed. */
  datatype State = State(
    main: Main, input: Pipe, mctl: MapperCtl, mp: P.Pool<FileLine>, rctl: ReducerCtl, rp: P.Pool<Group>,
    seen1: seq<Unit>, seen2: seq<Unit>, seen3: seq<Unit>)

  datatype Act =
    | MainSend(k: nat) | MainCloseInput | MainReceive(k: nat) | MainEof | MainWaitMapper | MainWaitReducer
    | MapperRead(k: nat) | MapperEof | MapperHand(sig: nat) | MapperShut | MapperExit | MapperPool(ma: P.Act<FileLine>)
    | ReducerRead(k: nat) | ReducerEof | ReducerHand(sig: nat) | ReducerShut | ReducerExit
    | ReducerPool(ra: P.Act<Group>)

  /** Pool steps that do not belong to a controller or to the next process. */
  predicate Own<J>(a: P.Act<J>) { P.ByWorkers(a) || P.Spurious(a) }

  /** mr_queue_push: its assertion, then its critical section, once or again after a wakeup. */
  function Feeding<J>(p: P.Pool<J>, x: J, sig: nat): P.Act<J>
    requires |p.q.prods| == 1
  {
    if p.q.prods[0] == M.Ready then P.Feed(x) else P.Insert(sig)
  }

  ghost predicate Enabled(c: Config, s: State, a: Act)
  {
    match a
    case MainSend(k) => s.main.Sending? && k <= |s.main.rest| && CanWrite(s.input, k)
    case MainCloseInput => s.main.Sending? && s.main.rest == []
    case MainReceive(k) =>
      s.main.Receiving? && k <= Wanted(RecordKind, s.main.buf) && P.Enabled(c.reducer, s.rp, P.Drain(k))
    case MainEof => s.main.Receiving? && s.main.buf == [] && AtEof(s.rp.out)
    case MainWaitMapper => s.main.AwaitMapper? && s.mctl.Exited?
    case MainWaitReducer => s.main.AwaitReducer? && s.rctl.Ended?
    case MapperRead(k) => s.mctl.Reading? && k <= Wanted(KindFor(s.mctl.cur), s.mctl.buf) && CanRead(s.input, k)
    case MapperEof => s.mctl.Reading? && s.mctl.buf == [] && s.mctl.cur.Between? && AtEof(s.input)
    case MapperHand(sig) =>
      && s.mctl.Handing? && |s.mp.q.prods| == 1 && P.Enabled(c.mapper, s.mp, Feeding(s.mp, s.mctl.line, sig))
    case MapperShut => s.mctl.Closing?
    case MapperExit => s.mctl.Joining? && M.AllGone(s.mp.q)
    case MapperPool(ma) => !s.mctl.Exited? && Own(ma) && P.Enabled(c.mapper, s.mp, ma)
    case ReducerRead(k) =>
      && s.rctl.Collecting? && |s.rctl.table| == c.layout.size > 0
      && k <= Wanted(RecordKind, s.rctl.buf) && P.Enabled(c.mapper, s.mp, P.Drain(k))
    case ReducerEof => s.rctl.Collecting? && s.rctl.buf == [] && AtEof(s.mp.out)
    case ReducerHand(sig) =>
      && s.rctl.Pushing? && s.rctl.todo != [] && |s.rp.q.prods| == 1
      && P.Enabled(c.reducer, s.rp, Feeding(s.rp, s.rctl.todo[0], sig))
    case ReducerShut => s.rctl.Pushing? && s.rctl.todo == []
    case ReducerExit => s.rctl.Reaping? && M.AllGone(s.rp.q)
    case ReducerPool(ra) => !s.rctl.Collecting? && !s.rctl.Ended? && Own(ra) && P.Enabled(c.reducer, s.rp, ra)
  }

  /** receive_line_from_main_fd after one more chunk. */
  ghost function MapperHears(s: State, chunk: seq<Byte>): State
    requires s.mctl.Reading?
  {
    var buf := s.mctl.buf + chunk;
    var kind := KindFor(s.mctl.cur);
    if !Complete(kind, buf) then s.(mctl := Reading(s.mctl.cur, buf))
    else
      var u := Decode(kind, buf);
      var cur := Advance(s.mctl.cur, u);
      var out := Delivered(s.mctl.cur, u);
      s.(mctl := if out == [] then Reading(cur, []) else Handing(cur, out[0]), seen1 := s.seen1 + [u])
  }

  /** The collection loop after one more chunk. */
  ghost function ReducerHears(c: Config, s: State, chunk: seq<Byte>): State
    requires s.rctl.Collecting? && |s.rctl.table| == c.layout.size > 0
  {
    var buf := s.rctl.buf + chunk;
    if !Complete(RecordKind, buf) then s.(rctl := Collecting(buf, s.rctl.table))
    else
      var u := Decode(RecordKind, buf);
      s.(rctl := Collecting([], AddPair(c.layout, s.rctl.table, u.rec)), seen2 := s.seen2 + [u])
  }

  /** receive_output_from_reducer after one more chunk. */
  ghost function MainHears(s: State, chunk: seq<Byte>): State
    requires s.main.Receiving?
  {
    var buf := s.main.buf + chunk;
    if !Complete(RecordKind, buf) then s.(main := Receiving(buf, s.main.file))
    else
      var u := Decode(RecordKind, buf);
      s.(main := Receiving([], s.main.file + FileRecord(u.rec)), seen3 := s.seen3 + [u])
  }

  ghost function Apply(c: Config, s: State, a: Act): State
    requires Enabled(c, s, a)
  {
    match a
    case MainSend(k) => s.(main := Sending(s.main.rest[k..]), input := Write(s.input, s.main.rest[..k]))
    case MainCloseInput => s.(main := Receiving([], []), input := s.input.(open := false))
    case MainReceive(k) => MainHears(s.(rp := P.Apply(c.reducer, s.rp, P.Drain(k))), Chunk(s.rp.out, k))
    case MainEof => s.(main := AwaitMapper(s.main.file))
    case MainWaitMapper => s.(main := AwaitReducer(s.main.file))
    case MainWaitReducer => s.(main := Finished(s.main.file))
    case MapperRead(k) => MapperHears(s.(input := Read(s.input, k)), Chunk(s.input, k))
    case MapperEof => s.(mctl := Closing)
    case MapperHand(sig) =>
      var mp := P.Apply(c.mapper, s.mp, Feeding(s.mp, s.mctl.line, sig));
      s.(mp := mp, mctl := if |mp.q.prods| == 1 && mp.q.prods[0] == M.Ready then Reading(s.mctl.cur, []) else s.mctl)
    case MapperShut => s.(mctl := Joining, mp := P.Apply(c.mapper, s.mp, P.Shut))
    case MapperExit => s.(mctl := Exited, mp := s.mp.(out := s.mp.out.(open := false)))
    case MapperPool(ma) => s.(mp := P.Apply(c.mapper, s.mp, ma))
    case ReducerRead(k) => ReducerHears(c, s.(mp := P.Apply(c.mapper, s.mp, P.Drain(k))), Chunk(s.mp.out, k))
    case ReducerEof => s.(rctl := Pushing(Nodes(s.rctl.table)))
    case ReducerHand(sig) =>
      var rp := P.Apply(c.reducer, s.rp, Feeding(s.rp, s.rctl.todo[0], sig));
      s.(rp := rp, rctl := if |rp.q.prods| == 1 && rp.q.prods[0] == M.Ready then Pushing(s.rctl.todo[1..]) else s.rctl)
    case ReducerShut => s.(rctl := Reaping, rp := P.Apply(c.reducer, s.rp, P.Shut))
    case ReducerExit => s.(rctl := Ended, rp := s.rp.(out := s.rp.out.(open := false)))
    case ReducerPool(ra) => s.(rp := P.Apply(c.reducer, s.rp, ra))
  }

  predicate Spurious(a: Act)
  {
    (a.MapperPool? && P.Spurious(a.ma)) || (a.ReducerPool? && P.Spurious(a.ra))
  }

  /** At the start nothing has been sent, all queues and pipes are empty and open, and there is at least one worker
      on each side; thread counts, queue and pipe capacities are otherwise arbitrary. */
  ghost predicate Initial(c: Config, s: State)
  {
    && ValidConfig(c)
    && s.main == Sending(Stream(c.units)) && Valid(s.input) && s.input.hist == [] && s.input.open
    && s.mctl == Reading(Between, []) && P.Initial(s.mp) && s.mp.out.open && |s.mp.hands| > 0
    && s.rctl == Collecting([], EmptyTable(c.layout)) && P.Initial(s.rp) && s.rp.out.open && |s.rp.hands| > 0
    && s.seen1 == [] && s.seen2 == [] && s.seen3 == []
  }

  // ---------------------------------------------------------------- invariant

  /** Main's side of the input pipe. */
  ghost predicate InputOk(c: Config, main: Main, input: Pipe)
  {
    && Valid(input) && (input.open <==> main.Sending?)
    && input.hist + (if main.Sending? then main.rest else []) == Stream(c.units)
  }

  /** The only feeder of a queue: whether it is inside a push and of what, and that it closes only when outside. */
  ghost predicate FeederOk<J>(p: P.Pool<J>, inside: seq<J>, closed: bool)
  {
    && |p.q.prods| == 1 && p.q.closed == closed && (closed ==> M.Settled(p.q))
    && (p.q.prods[0] != M.Ready ==> |inside| == 1 && 0 in p.q.hand && p.q.hand[0] == inside[0])
  }

  function MapperBuffer(m: MapperCtl): seq<Byte> { if m.Reading? then m.buf else [] }

  function MapperInside(m: MapperCtl): seq<FileLine> { if m.Handing? then [m.line] else [] }

  /** The mapper's controller is in step with the input stream, and has pushed the lines received so far. */
  ghost predicate MapperOk(c: Config, m: MapperCtl, mp: P.Pool<FileLine>, input: Pipe, seen: seq<Unit>)
  {
    && |mp.hands| > 0
    && (mp.out.open <==> !m.Exited?)
    && (m.Exited? ==> M.AllGone(mp.q))
    && FeederOk(mp, MapperInside(m), m.Joining? || m.Exited?)
    && InStep(input.hist, input.rd, seen, MapperBuffer(m), c.units)
    && mp.q.pushed + MapperInside(m) == LinesFrom(Between, seen)
    && (m.Reading? || m.Handing? ==> m.cur == CursorAfter(Between, seen))
    && (!m.Reading? && !m.Handing? ==> seen == c.units && !input.open)
  }

  function ReducerBuffer(r: ReducerCtl): seq<Byte> { if r.Collecting? then r.buf else [] }

  function ReducerInside(r: ReducerCtl): seq<Group> { if r.Pushing? && r.todo != [] then [r.todo[0]] else [] }

  function ToPush(r: ReducerCtl): seq<Group> { if r.Pushing? then r.todo else [] }

  /** The reducer's controller is in step with the pairs; it pushes nothing before the mapper has exited and all its
      pairs are in the table, and then exactly the table's nodes. */
  ghost predicate ReducerOk(c: Config, r: ReducerCtl, rp: P.Pool<Group>, mp: P.Pool<FileLine>, exited: bool,
                            seen: seq<Unit>)
  {
    && |rp.hands| > 0 && c.layout.size > 0
    && (rp.out.open <==> !r.Ended?)
    && (r.Ended? ==> M.AllGone(rp.q))
    && FeederOk(rp, ReducerInside(r), r.Reaping? || r.Ended?)
    && InStep(mp.out.hist, mp.out.rd, seen, ReducerBuffer(r), P.Committed(c.mapper, mp))
    && (r.Collecting? ==> r.table == Table(c.layout, RecordsIn(seen)) && rp.q.pushed == [])
    && (!r.Collecting? ==> exited && seen == P.Sent(mp.log))
    && (!r.Collecting? ==> rp.q.pushed + ToPush(r) == Nodes(Table(c.layout, RecordsIn(seen))))
  }

  function MainBuffer(m: Main): seq<Byte> { if m.Receiving? then m.buf else [] }

  /** Main is in step with the results, and its file holds those it has received. */
  ghost predicate MainOk(c: Config, m: Main, rp: P.Pool<Group>, ended: bool, seen: seq<Unit>)
  {
    && InStep(rp.out.hist, rp.out.rd, seen, MainBuffer(m), P.Committed(c.reducer, rp))
    && (m.Sending? ==> seen == [])
    && (!m.Sending? ==> m.file == FileOf(RecordsIn(seen)))
    && (!m.Sending? && !m.Receiving? ==> ended && seen == P.Sent(rp.log))
  }

  ghost predicate Inv(c: Config, s: State)
  {
    && ValidConfig(c) && InputOk(c, s.main, s.input) && P.Inv(c.mapper, s.mp) && P.Inv(c.reducer, s.rp)
    && MapperOk(c, s.mctl, s.mp, s.input, s.seen1)
    && ReducerOk(c, s.rctl, s.rp, s.mp, s.mctl.Exited?, s.seen2)
    && MainOk(c, s.main, s.rp, s.rctl.Ended?, s.seen3)
  }

  lemma InitialInv(c: Config, s: State)
    requires Initial(c, s)
    ensures Inv(c, s)
  {
    hide P.Inv, M.Settled;
    P.InitialInv(c.mapper, s.mp);
    P.InitialInv(c.reducer, s.rp);
    assert FileOf([]) == [] && RecordsIn([]) == [] && Table(c.layout, []) == EmptyTable(c.layout);
    assert Stream([]) == [] && CursorAfter(Between, []) == Between && LinesFrom(Between, []) == [];
  }
}
