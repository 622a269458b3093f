/** Every step of the pipeline keeps its invariant, and what that says about a finished run. */
module PipelineSafety {
  import opened Collections
  import opened Wire
  import opened Pipes
  import opened Lines
  import opened Grouping
  import opened Output
  import opened Pipeline
  import M = Monitor
  import P = Pool

  // ---------------------------------------------------------------- one pool and its feeder

  lemma FeederPushes<J>(work: J -> seq<Record>, p: P.Pool<J>, x: J, sig: nat)
    requires P.Inv(work, p) && FeederOk(p, [x], false) && P.Enabled(work, p, Feeding(p, x, sig))
    ensures var p' := P.Apply(work, p, Feeding(p, x, sig));
            && P.Inv(work, p') && p' == p.(q := p'.q) && P.Committed(work, p') == P.Committed(work, p)
            && |p'.q.prods| == 1
            && (if p'.q.prods[0] == M.Ready then FeederOk(p', [], false) && p'.q.pushed == p.q.pushed + [x]
                else FeederOk(p', [x], false) && p'.q.pushed == p.q.pushed)
  {
    hide P.Inv, P.Committed, M.Settled, P.Apply;
    P.StepInv(work, p, Feeding(p, x, sig));
    P.LeavesOutputAlone(work, p, Feeding(p, x, sig));
    assert [x][0] == x;
  }

  lemma FeederShuts<J>(work: J -> seq<Record>, p: P.Pool<J>)
    requires P.Inv(work, p) && FeederOk(p, [], false)
    ensures var p' := P.Apply(work, p, P.Shut);
            && P.Inv(work, p') && p' == p.(q := p'.q) && P.Committed(work, p') == P.Committed(work, p)
            && |p'.hands| == |p.hands| && FeederOk(p', [], true) && p'.q.pushed == p.q.pushed
  {
    hide P.Inv, P.Committed, M.Settled, P.Apply, M.Inv;
    P.InvParts(work, p);
    P.StepInv(work, p, P.Shut);
    P.LeavesOutputAlone(work, p, P.Shut);
    M.NobodyInside(p.q);
    M.SettlesOnClose(p.q, M.Close);
  }

  lemma OwnStep<J>(work: J -> seq<Record>, p: P.Pool<J>, a: P.Act<J>, inside: seq<J>, closed: bool)
    requires P.Inv(work, p) && FeederOk(p, inside, closed) && P.Enabled(work, p, a) && Own(a)
    ensures var p' := P.Apply(work, p, a);
            && P.Inv(work, p') && FeederOk(p', inside, closed) && |p'.hands| == |p.hands|
            && p'.q.pushed == p.q.pushed && p'.out.open == p.out.open && p'.out.rd == p.out.rd
            && P.Committed(work, p) <= P.Committed(work, p') && p.out.hist <= p'.out.hist
            && p'.out.hist <= Stream(P.Committed(work, p'))
  {
    hide P.Inv, P.Committed, M.Settled, P.Apply, M.Inv, P.Shaped, P.Framed, P.Enabled;
    var p' := P.Apply(work, p, a);
    P.StepInv(work, p, a);
    P.InvParts(work, p);
    P.InvParts(work, p');
    P.LeavesControllerAlone(work, p, a);
    P.CommittedGrows(work, p, a);
    P.StreamIsCommitted(work, p');
    if closed { P.SettledStep(work, p, a); }
  }

  /** Another chunk is read from the pool's output. */
  lemma DrainStep<J>(work: J -> seq<Record>, p: P.Pool<J>, k: nat)
    requires P.Inv(work, p) && P.Enabled(work, p, P.Drain(k))
    ensures var p' := P.Apply(work, p, P.Drain(k));
            && P.Inv(work, p') && p' == p.(out := p.out.(rd := p.out.rd + k))
            && P.Committed(work, p') == P.Committed(work, p)
  {
    hide P.Inv, P.Committed;
    P.StepInv(work, p, P.Drain(k));
    P.SameCommitted(work, p, P.Apply(work, p, P.Drain(k)));
  }

  /** A stream that grows within what is committed keeps its reader in step. */
  lemma InStepGrows(hist: seq<Byte>, hist': seq<Byte>, rd: nat, got: seq<Unit>, buf: seq<Byte>, all: seq<Unit>,
                    all': seq<Unit>)
    requires InStep(hist, rd, got, buf, all) && hist <= hist' && all <= all' && hist' <= Stream(all')
    ensures InStep(hist', rd, got, buf, all')
  {
    hide Stream, Encode;
    assert hist'[..rd] == hist[..rd];
  }

  // ---------------------------------------------------------------- Main

  lemma MainSendInv(c: Config, s: State, k: nat)
    requires Inv(c, s) && Enabled(c, s, MainSend(k))
    ensures Inv(c, Apply(c, s, MainSend(k)))
  {
    hide P.Inv, P.Committed, P.Enabled, M.Settled, Stream, Encode, FeederOk, LinesFrom, CursorAfter, ReducerOk, Sends;
    var s' := Apply(c, s, MainSend(k));
    var r := s.main.rest;
    assert r == r[..k] + r[k..];
    Assoc(s.input.hist, r[..k], r[k..]);
    InStepGrows(s.input.hist, s'.input.hist, s.input.rd, s.seen1, MapperBuffer(s.mctl), c.units, c.units);
  }

  lemma MainCloseInputInv(c: Config, s: State)
    requires Inv(c, s) && Enabled(c, s, MainCloseInput)
    ensures Inv(c, Apply(c, s, MainCloseInput))
  {
    hide P.Inv, P.Committed, P.Enabled, M.Settled, Stream, Encode, FeederOk, LinesFrom, CursorAfter, ReducerOk, Sends;
    assert FileOf(RecordsIn([])) == [];
  }

  lemma RecordsNext(us: seq<Unit>, u: Unit)
    requires u.Rec?
    ensures RecordsIn(us + [u]) == RecordsIn(us) + [u.rec]
  {
    RecordsInSnoc(us, u);
  }

  lemma MainReceiveInv(c: Config, s: State, k: nat)
    requires Inv(c, s) && Enabled(c, s, MainReceive(k))
    ensures Inv(c, Apply(c, s, MainReceive(k)))
  {
    hide P.Inv, P.Committed, P.Apply, M.Settled, Stream, Encode, Decode, Complete, Wanted, MapperOk, Sends, InStep,
         FileOf, FileRecord, RecordsIn, Table, Nodes;
    var all := P.Committed(c.reducer, s.rp);
    DrainStep(c.reducer, s.rp, k);
    P.CommittedRecords(c.reducer, s.rp);
    ReadKeepsStep(s.rp.out.hist, s.rp.out.rd, s.seen3, s.main.buf, all, RecordKind, k);
    RecordsNext(s.seen3, all[|s.seen3|]);
    FileOfSnoc(RecordsIn(s.seen3), all[|s.seen3|].rec);
  }

  /** The reader of a finished pool's output has seen every frame when it reaches EOF. */
  lemma PoolEof<J>(work: J -> seq<Record>, p: P.Pool<J>, seen: seq<Unit>, buf: seq<Byte>)
    requires P.Inv(work, p) && M.AllGone(p.q) && p.out.rd == |p.out.hist|
    requires InStep(p.out.hist, p.out.rd, seen, buf, P.Committed(work, p))
    ensures buf == [] && seen == P.Sent(p.log)
  {
    P.InvParts(work, p);
    P.QuietIsWhole(work, p);
    EndOfStream(p.out.hist, seen, buf, P.Committed(work, p));
  }

  lemma MainEofInv(c: Config, s: State)
    requires Inv(c, s) && Enabled(c, s, MainEof)
    ensures Inv(c, Apply(c, s, MainEof))
  {
    hide P.Inv, P.Committed, P.Enabled, M.Settled, Stream, Encode, FeederOk, MapperOk, Sends, InStep, FileOf,
         RecordsIn, P.Sent, Table, Nodes;
    PoolEof(c.reducer, s.rp, s.seen3, s.main.buf);
  }

  lemma MainWaitInv(c: Config, s: State, a: Act)
    requires Inv(c, s) && Enabled(c, s, a) && (a.MainWaitMapper? || a.MainWaitReducer?)
    ensures Inv(c, Apply(c, s, a))
  {
    hide P.Inv, P.Committed, P.Enabled, Stream, MapperOk, ReducerOk, Sends, InStep, FileOf, RecordsIn, P.Sent;
  }

  // ---------------------------------------------------------------- the mapper

  lemma MapperReadInv(c: Config, s: State, k: nat)
    requires Inv(c, s) && Enabled(c, s, MapperRead(k))
    ensures Inv(c, Apply(c, s, MapperRead(k)))
  {
    hide P.Inv, P.Committed, P.Enabled, M.Settled, Stream, Encode, Decode, Complete, Wanted, ReducerOk, MainOk, Sends,
         InStep, Advance, Delivered, CursorAfter, LinesFrom, FeederOk, KindFor, KindOf;
    Understood(c.units, c.files);
    var n := |s.seen1|;
    if n < |c.units| { NextKind(c, s); }
    ReadKeepsStep(s.input.hist, s.input.rd, s.seen1, s.mctl.buf, c.units, KindFor(s.mctl.cur), k);
    var u := c.units[n];
    Snoc(Between, s.seen1, u);
    DeliveredAtMostOne(s.mctl.cur, u);
    assert FeederOk(s.mp, [], false);
    assert forall x :: FeederOk(s.mp, [x], false) by { FeederMayEnter(s.mp); }
  }

  lemma NextKind(c: Config, s: State)
    requires Expected(c.units) && s.mctl.Reading? && MapperOk(c, s.mctl, s.mp, s.input, s.seen1)
    requires |s.seen1| < |c.units|
    ensures KindOf(c.units[|s.seen1|]) == KindFor(s.mctl.cur)
  {
    hide FeederOk, LinesFrom, CursorAfter, KindOf, KindFor, Stream, Encode;
    assert s.seen1 == c.units[..|s.seen1|];
  }

  lemma DeliveredAtMostOne(cur: Cursor, u: Unit)
    ensures Delivered(cur, u) == [] || Delivered(cur, u) == [Delivered(cur, u)[0]]
  {
  }

  lemma FeederMayEnter<J(!new)>(p: P.Pool<J>)
    requires FeederOk(p, [], false)
    ensures forall x :: FeederOk(p, [x], false)
  {
    hide M.Settled;
  }

  lemma MapperEofInv(c: Config, s: State)
    requires Inv(c, s) && Enabled(c, s, MapperEof)
    ensures Inv(c, Apply(c, s, MapperEof))
  {
    hide P.Inv, P.Committed, P.Enabled, M.Settled, Stream, Encode, ReducerOk, MainOk, Sends, LinesFrom, CursorAfter,
         FeederOk, InStep;
    assert s.input.hist == Stream(c.units);
    EndOfStream(s.input.hist, s.seen1, s.mctl.buf, c.units);
  }

  lemma MapperHandInv(c: Config, s: State, sig: nat)
    requires Inv(c, s) && Enabled(c, s, MapperHand(sig))
    ensures Inv(c, Apply(c, s, MapperHand(sig)))
  {
    hide P.Inv, P.Committed, P.Enabled, P.Apply, M.Settled, Stream, MainOk, Sends, LinesFrom, CursorAfter, FeederOk,
         InStep, InputOk, Table, Nodes, RecordsIn, P.Sent, Feeding;
    assert FeederOk(s.mp, [s.mctl.line], false) && |s.mp.q.prods| == 1;
    FeederPushes(c.mapper, s.mp, s.mctl.line, sig);
  }

  lemma MapperShutInv(c: Config, s: State)
    requires Inv(c, s) && Enabled(c, s, MapperShut)
    ensures Inv(c, Apply(c, s, MapperShut))
  {
    hide P.Inv, P.Committed, P.Enabled, P.Apply, M.Settled, Stream, MainOk, Sends, LinesFrom, CursorAfter, FeederOk,
         InStep, InputOk, Table, Nodes, RecordsIn, P.Sent;
    FeederShuts(c.mapper, s.mp);
  }

  lemma MapperExitInv(c: Config, s: State)
    requires Inv(c, s) && Enabled(c, s, MapperExit)
    ensures Inv(c, Apply(c, s, MapperExit))
  {
    hide P.Inv, P.Committed, P.Enabled, M.Settled, Stream, MainOk, Sends, LinesFrom, CursorAfter, InStep, InputOk,
         Table, Nodes, RecordsIn, P.Sent;
    P.ExitKeepsInv(c.mapper, s.mp);
  }

  lemma MapperPoolInv(c: Config, s: State, a: P.Act<FileLine>)
    requires Inv(c, s) && Enabled(c, s, MapperPool(a))
    ensures Inv(c, Apply(c, s, MapperPool(a)))
  {
    hide P.Inv, P.Committed, P.Enabled, P.Apply, M.Settled, Stream, MainOk, Sends, LinesFrom, CursorAfter, FeederOk,
         InStep, InputOk, Table, Nodes, RecordsIn, P.Sent, Own;
    OwnStep(c.mapper, s.mp, a, MapperInside(s.mctl), s.mctl.Joining? || s.mctl.Exited?);
    var mp' := P.Apply(c.mapper, s.mp, a);
    InStepGrows(s.mp.out.hist, mp'.out.hist, s.mp.out.rd, s.seen2, ReducerBuffer(s.rctl),
                P.Committed(c.mapper, s.mp), P.Committed(c.mapper, mp'));
  }

  // ---------------------------------------------------------------- the reducer

  lemma ReducerReadInv(c: Config, s: State, k: nat)
    requires Inv(c, s) && Enabled(c, s, ReducerRead(k))
    ensures Inv(c, Apply(c, s, ReducerRead(k)))
  {
    hide P.Inv, P.Committed, P.Apply, M.Settled, Stream, Encode, Decode, Complete, Wanted, MainOk, Sends, InStep,
         RecordsIn, InputOk, Nodes, AddPair, LinesFrom, CursorAfter, Table, P.Sent;
    var all := P.Committed(c.mapper, s.mp);
    DrainStep(c.mapper, s.mp, k);
    P.CommittedRecords(c.mapper, s.mp);
    ReadKeepsStep(s.mp.out.hist, s.mp.out.rd, s.seen2, s.rctl.buf, all, RecordKind, k);
    RecordsNext(s.seen2, all[|s.seen2|]);
    TableSnoc(c.layout, RecordsIn(s.seen2), all[|s.seen2|].rec);
  }

  lemma ReducerEofInv(c: Config, s: State)
    requires Inv(c, s) && Enabled(c, s, ReducerEof)
    ensures Inv(c, Apply(c, s, ReducerEof))
  {
    hide P.Inv, P.Committed, P.Enabled, M.Settled, Stream, Encode, MainOk, Sends, InStep, RecordsIn, P.Sent, Table,
         Nodes, LinesFrom, CursorAfter, InputOk;
    PoolEof(c.mapper, s.mp, s.seen2, s.rctl.buf);
  }

  lemma ReducerHandInv(c: Config, s: State, sig: nat)
    requires Inv(c, s) && Enabled(c, s, ReducerHand(sig))
    ensures Inv(c, Apply(c, s, ReducerHand(sig)))
  {
    hide P.Inv, P.Committed, P.Enabled, P.Apply, M.Settled, Stream, MapperOk, Sends, InStep, InputOk, Table, Nodes,
         RecordsIn, P.Sent, Feeding, FileOf, FeederOk;
    var x, todo := s.rctl.todo[0], s.rctl.todo;
    assert FeederOk(s.rp, [x], false) && |s.rp.q.prods| == 1;
    FeederPushes(c.reducer, s.rp, x, sig);
    assert todo == [x] + todo[1..];
    Assoc(s.rp.q.pushed, [x], todo[1..]);
    assert FeederOk(P.Apply(c.reducer, s.rp, Feeding(s.rp, x, sig)), [], false) ==>
           forall y :: FeederOk(P.Apply(c.reducer, s.rp, Feeding(s.rp, x, sig)), [y], false) by {
      if FeederOk(P.Apply(c.reducer, s.rp, Feeding(s.rp, x, sig)), [], false) {
        FeederMayEnter(P.Apply(c.reducer, s.rp, Feeding(s.rp, x, sig)));
      }
    }
  }

  lemma ReducerShutInv(c: Config, s: State)
    requires Inv(c, s) && Enabled(c, s, ReducerShut)
    ensures Inv(c, Apply(c, s, ReducerShut))
  {
    hide P.Inv, P.Committed, P.Enabled, P.Apply, M.Settled, Stream, MapperOk, Sends, InStep, InputOk, Table, Nodes,
         RecordsIn, P.Sent, FileOf, FeederOk;
    FeederShuts(c.reducer, s.rp);
  }

  lemma ReducerExitInv(c: Config, s: State)
    requires Inv(c, s) && Enabled(c, s, ReducerExit)
    ensures Inv(c, Apply(c, s, ReducerExit))
  {
    hide P.Inv, P.Committed, P.Enabled, M.Settled, Stream, MapperOk, Sends, InStep, InputOk, Table, Nodes, RecordsIn,
         P.Sent, FileOf;
    P.ExitKeepsInv(c.reducer, s.rp);
  }

  lemma ReducerPoolInv(c: Config, s: State, a: P.Act<Group>)
    requires Inv(c, s) && Enabled(c, s, ReducerPool(a))
    ensures Inv(c, Apply(c, s, ReducerPool(a)))
  {
    hide P.Inv, P.Committed, P.Enabled, P.Apply, M.Settled, Stream, MapperOk, Sends, FeederOk, InStep, InputOk, Table,
         Nodes, RecordsIn, P.Sent, Own, FileOf;
    OwnStep(c.reducer, s.rp, a, ReducerInside(s.rctl), s.rctl.Reaping? || s.rctl.Ended?);
    var rp' := P.Apply(c.reducer, s.rp, a);
    InStepGrows(s.rp.out.hist, rp'.out.hist, s.rp.out.rd, s.seen3, MainBuffer(s.main),
                P.Committed(c.reducer, s.rp), P.Committed(c.reducer, rp'));
  }

  /** Every step of every process and thread keeps the invariant. */
  lemma StepInv(c: Config, s: State, a: Act)
    requires Inv(c, s) && Enabled(c, s, a)
    ensures Inv(c, Apply(c, s, a))
  {
    hide Inv, Enabled, Apply;
    match a
    case MainSend(k) => MainSendInv(c, s, k);
    case MainCloseInput => MainCloseInputInv(c, s);
    case MainReceive(k) => MainReceiveInv(c, s, k);
    case MainEof => MainEofInv(c, s);
    case MainWaitMapper => MainWaitInv(c, s, a);
    case MainWaitReducer => MainWaitInv(c, s, a);
    case MapperRead(k) => MapperReadInv(c, s, k);
    case MapperEof => MapperEofInv(c, s);
    case MapperHand(sig) => MapperHandInv(c, s, sig);
    case MapperShut => MapperShutInv(c, s);
    case MapperExit => MapperExitInv(c, s);
    case MapperPool(ma) => MapperPoolInv(c, s, ma);
    case ReducerRead(k) => ReducerReadInv(c, s, k);
    case ReducerEof => ReducerEofInv(c, s);
    case ReducerHand(sig) => ReducerHandInv(c, s, sig);
    case ReducerShut => ReducerShutInv(c, s);
    case ReducerExit => ReducerExitInv(c, s);
    case ReducerPool(ra) => ReducerPoolInv(c, s, ra);
  }

  // ---------------------------------------------------------------- finished runs

  ghost predicate Schedule(c: Config, s: State, acts: seq<Act>)
    decreases |acts|
  {
    acts == [] || (Enabled(c, s, acts[0]) && Schedule(c, Apply(c, s, acts[0]), acts[1..]))
  }

  ghost function After(c: Config, s: State, acts: seq<Act>): State
    requires Schedule(c, s, acts)
    decreases |acts|
  {
    if acts == [] then s else After(c, Apply(c, s, acts[0]), acts[1..])
  }

  lemma {:induction false} ScheduleInv(c: Config, s: State, acts: seq<Act>)
    requires Inv(c, s) && Schedule(c, s, acts)
    ensures Inv(c, After(c, s, acts))
    decreases |acts|
  {
    hide Inv, Enabled, Apply;
    if acts != [] {
      StepInv(c, s, acts[0]);
      ScheduleInv(c, Apply(c, s, acts[0]), acts[1..]);
    }
  }

  /** The sequential program that the parallel run is to compute: map every line, group by token, reduce. */
  ghost function Sequential(c: Config): seq<Record>
  {
    FlatMap(c.reducer, GroupBy(FlatMap(c.mapper, AllLines(c.files))))
  }

  lemma {:induction false} RecordsInSent(log: seq<P.Emitted>)
    ensures RecordsIn(P.Sent(log)) == P.Records(log)
  {
    if log != [] {
      var n := |log| - 1;
      RecordsInSent(log[..n]);
      assert P.Sent(log) == P.Sent(log[..n]) + [Rec(log[n].rec)];
      assert P.Records(log) == P.Records(log[..n]) + [log[n].rec];
      RecordsInSnoc(P.Sent(log[..n]), Rec(log[n].rec));
    }
  }

  /** A joined pool whose queue was closed by its only feeder is over: nothing is left in the queue. */
  lemma JoinedIsOver<J>(p: P.Pool<J>, inside: seq<J>)
    requires M.Inv(p.q) && FeederOk(p, inside, true) && M.AllGone(p.q) && |p.q.cons| > 0
    ensures P.Over(p)
  {
    hide M.Inv;
    assert p.q.cons[0] == M.Gone;
    M.CountSomebody(p.q.cons, M.Gone);
  }

  lemma MapperIsComplete(c: Config, s: State)
    requires Inv(c, s) && s.mctl.Exited?
    ensures multiset(P.Records(s.mp.log)) == multiset(FlatMap(c.mapper, AllLines(c.files)))
    ensures s.mp.count == |s.mp.log|
  {
    hide ReducerOk, MainOk, InputOk, InStep, FlatMap, SumBag, P.Shaped, M.Settled, M.Inv, Sends, LinesFrom, CursorAfter,
         P.RecordsBalance, P.JobsBalance, P.Ordered, Stream, AllLines, P.Records, FeederOk, Expected;
    P.InvParts(c.mapper, s.mp);
    JoinedIsOver(s.mp, []);
    P.OverIsComplete(c.mapper, s.mp);
    Understood(c.units, c.files);
    assert s.mp.q.pushed == AllLines(c.files);
    BagOfFlatMap(c.mapper, P.WorkBag(c.mapper), AllLines(c.files));
  }

  lemma ReducerIsComplete(c: Config, s: State)
    requires Inv(c, s) && s.rctl.Ended?
    ensures var nodes := Nodes(Table(c.layout, RecordsIn(s.seen2)));
            && multiset(P.Records(s.rp.log)) == SumBag(P.WorkBag(c.reducer), nodes)
            && SumBag(P.BagOf(), s.rp.done) == multiset(nodes) && s.rp.count == |s.rp.log|
  {
    hide MapperOk, MainOk, InputOk, InStep, SumBag, P.Shaped, M.Settled, M.Inv, Sends, P.RecordsBalance, P.JobsBalance,
         P.Ordered, Stream, P.Records, FeederOk, Table, Nodes, RecordsIn;
    P.InvParts(c.reducer, s.rp);
    JoinedIsOver(s.rp, []);
    P.OverIsComplete(c.reducer, s.rp);
    assert s.rp.q.pushed + [] == s.rp.q.pushed;
  }

  /** End to end, for every schedule, thread counts, capacities and padding: when Main finishes, the pairs the reducer
      collected are a permutation of what the mapper emits for all lines of all files; the reducer function has been
      called exactly once for each distinct token, with all the values of that token; and the output file decodes to
      exactly the records those calls emitted. */
  lemma FinishedRunIsCorrect(c: Config, s0: State, acts: seq<Act>)
    requires Initial(c, s0) && Schedule(c, s0, acts) && After(c, s0, acts).main.Finished?
    ensures var s := After(c, s0, acts);
            var pairs := RecordsIn(s.seen2);
            var nodes := Nodes(Table(c.layout, pairs));
            && multiset(pairs) == multiset(FlatMap(c.mapper, AllLines(c.files)))
            && Groups(nodes, pairs) && GroupsInSomeOrder(nodes, FlatMap(c.mapper, AllLines(c.files)))
            && SumBag(P.BagOf(), s.rp.done) == multiset(nodes)
            && multiset(Decoded(s.main.file)) == SumBag(P.WorkBag(c.reducer), nodes)
            && s.main.file == FileOf(Decoded(s.main.file))
            && s.mp.count == |pairs| && s.rp.count == |Decoded(s.main.file)|
  {
    InitialInv(c, s0);
    ScheduleInv(c, s0, acts);
    hide Schedule, After, MapperOk, InputOk, InStep, SumBag, FlatMap, P.Inv, Sends, FeederOk, Table, Nodes, RecordsIn,
         P.Sent, Groups, GroupsInSomeOrder, AllLines, FileOf, Decoded, Initial;
    var s := After(c, s0, acts);
    assert s.rctl.Ended? && s.mctl.Exited? && s.seen2 == P.Sent(s.mp.log) && s.seen3 == P.Sent(s.rp.log);
    MapperIsComplete(c, s);
    ReducerIsComplete(c, s);
    RecordsInSent(s.mp.log);
    RecordsInSent(s.rp.log);
    NodesAreGroups(c.layout, RecordsIn(s.seen2));
    FileRoundTrip(RecordsIn(s.seen3));
    hide Inv;
    var pairs := RecordsIn(s.seen2);
    GroupsOfPermutation(Nodes(Table(c.layout, pairs)), pairs, FlatMap(c.mapper, AllLines(c.files)));
  }

  /** With a reducer that does not care about the order of the values, every finished run yields the multiset of
      records of the sequential program. */
  lemma ParallelEqualsSequential(c: Config, s0: State, acts: seq<Act>)
    requires Initial(c, s0) && Schedule(c, s0, acts) && After(c, s0, acts).main.Finished?
    requires OrderInsensitive(P.WorkBag(c.reducer))
    ensures multiset(Decoded(After(c, s0, acts).main.file)) == multiset(Sequential(c))
  {
    FinishedRunIsCorrect(c, s0, acts);
    hide Initial, Schedule, After, SumBag, FlatMap, Table, Nodes, RecordsIn, Groups, GroupsInSomeOrder, AllLines,
         Decoded, OrderInsensitive,
         GroupBy;
    var pairs := RecordsIn(After(c, s0, acts).seen2);
    var all := FlatMap(c.mapper, AllLines(c.files));
    GroupByGroups(all);
    ReductionIgnoresArrivalOrder(P.WorkBag(c.reducer), Nodes(Table(c.layout, pairs)), pairs, GroupBy(all), all);
    BagOfFlatMap(c.reducer, P.WorkBag(c.reducer), GroupBy(all));
  }
}
