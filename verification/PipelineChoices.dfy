/** What the schedules of Pipeline leave open: in every state the invariant allows, a read may return and a write may
    take any number of bytes the kernel could choose, and no worker has to wait for another but for the mutex. So the
    theorems about all schedules are about all of these. */
module PipelineChoices {
  import opened Collections
  import opened Wire
  import opened Pipes
  import opened Lines
  import opened Grouping
  import opened Pipeline
  import opened PipelineSafety
  import M = Monitor
  import P = Pool

  /** A receiver that has bytes to read is inside the unit the sender has committed to next, and asks for the rest of
      the part it is in. */
  lemma ReceiverAsks(kind: Kind, hist: seq<Byte>, rd: nat, got: seq<Unit>, buf: seq<Byte>, all: seq<Unit>)
    requires InStep(hist, rd, got, buf, all) && rd < |hist|
    requires |got| < |all| ==> KindOf(all[|got|]) == kind
    ensures |got| < |all| && |buf| + Wanted(kind, buf) == PartEnd(all[|got|], |buf|)
  {
    hide Encode, Wanted, PartEnd, Stream;
    assert |got| == |all| ==> got == all && buf == [];
    if |got| < |all| {
      EmptyPrefix(all[|got|]);
      PrefixKnowsItsEnd(all[|got|], buf);
    }
  }

  lemma EmptyPrefix(u: Unit)
    ensures [] <= Encode(u)
  {
  }

  /** Main's write takes any number of bytes that fit. */
  lemma AnySend(c: Config, s: State, k: nat)
    requires Inv(c, s) && s.main.Sending?
    ensures Enabled(c, s, MainSend(k))
       <==> 1 <= k <= |s.main.rest| && k <= s.input.cap - (|s.input.hist| - s.input.rd)
  {
    hide MapperOk, ReducerOk, MainOk, P.Inv;
  }

  /** The mapper's controller: with bytes to read, its read returns any number of them up to the end of the header, name
      or text it is reading. */
  lemma AnyMapperRead(c: Config, s: State, k: nat)
    requires Inv(c, s) && s.mctl.Reading? && s.input.rd < |s.input.hist|
    ensures |s.seen1| < |c.units|
    ensures var n := |s.mctl.buf|;
            Enabled(c, s, MapperRead(k))
            <==> 1 <= k <= PartEnd(c.units[|s.seen1|], n) - n && k <= |s.input.hist| - s.input.rd
  {
    hide P.Inv, ReducerOk, MainOk, FeederOk, Wanted, PartEnd, Encode, Stream, LinesFrom, CursorAfter, InStep, KindOf,
         KindFor, Sends;
    Understood(c.units, c.files);
    if |s.seen1| < |c.units| { NextKind(c, s); }
    ReceiverAsks(KindFor(s.mctl.cur), s.input.hist, s.input.rd, s.seen1, s.mctl.buf, c.units);
  }

  /** The reducer's collection loop, up to the end of the header, token or value it is reading. */
  lemma AnyReducerRead(c: Config, s: State, k: nat)
    requires Inv(c, s) && s.rctl.Collecting? && s.mp.out.rd < |s.mp.out.hist|
    ensures |s.seen2| < |P.Committed(c.mapper, s.mp)|
    ensures var n, u := |s.rctl.buf|, P.Committed(c.mapper, s.mp)[|s.seen2|];
            Enabled(c, s, ReducerRead(k)) <==> 1 <= k <= PartEnd(u, n) - n && k <= |s.mp.out.hist| - s.mp.out.rd
  {
    hide Inv, Wanted, PartEnd, InStep, KindOf, P.Committed;
    ReducerInStep(c, s);
    P.CommittedRecords(c.mapper, s.mp);
    RecordsAreRecords();
    ReceiverAsks(RecordKind, s.mp.out.hist, s.mp.out.rd, s.seen2, s.rctl.buf, P.Committed(c.mapper, s.mp));
  }

  /** Main's receiving loop, up to the end of the header, token or result it is reading. */
  lemma AnyReceive(c: Config, s: State, k: nat)
    requires Inv(c, s) && s.main.Receiving? && s.rp.out.rd < |s.rp.out.hist|
    ensures |s.seen3| < |P.Committed(c.reducer, s.rp)|
    ensures var n, u := |s.main.buf|, P.Committed(c.reducer, s.rp)[|s.seen3|];
            Enabled(c, s, MainReceive(k)) <==> 1 <= k <= PartEnd(u, n) - n && k <= |s.rp.out.hist| - s.rp.out.rd
  {
    hide Inv, Wanted, PartEnd, InStep, KindOf, P.Committed;
    MainInStep(c, s);
    P.CommittedRecords(c.reducer, s.rp);
    RecordsAreRecords();
    ReceiverAsks(RecordKind, s.rp.out.hist, s.rp.out.rd, s.seen3, s.main.buf, P.Committed(c.reducer, s.rp));
  }

  lemma ReducerInStep(c: Config, s: State)
    requires Inv(c, s) && s.rctl.Collecting?
    ensures Valid(s.mp.out) && |s.rctl.table| == c.layout.size > 0
    ensures InStep(s.mp.out.hist, s.mp.out.rd, s.seen2, s.rctl.buf, P.Committed(c.mapper, s.mp))
  {
    hide P.Inv, MapperOk, MainOk, FeederOk, InStep, P.Committed, Sends, P.Framed, M.Inv;
    P.InvParts(c.mapper, s.mp);
  }

  lemma MainInStep(c: Config, s: State)
    requires Inv(c, s) && s.main.Receiving?
    ensures Valid(s.rp.out)
    ensures InStep(s.rp.out.hist, s.rp.out.rd, s.seen3, s.main.buf, P.Committed(c.reducer, s.rp))
  {
    hide P.Inv, MapperOk, ReducerOk, FeederOk, InStep, P.Committed, Sends, P.Framed, M.Inv;
    P.InvParts(c.reducer, s.rp);
  }

  lemma RecordsAreRecords()
    ensures forall u: Unit :: u.Rec? ==> KindOf(u) == RecordKind
  {
  }

  lemma PoolsAreShaped(c: Config, s: State)
    requires Inv(c, s)
    ensures P.Shaped(c.mapper, s.mp) && (s.mp.out.open <==> !s.mctl.Exited?)
    ensures P.Shaped(c.reducer, s.rp) && (s.rp.out.open <==> !s.rctl.Ended?)
  {
    hide FeederOk, InStep, Stream, P.Committed, Table, Nodes, P.Shaped;
    P.InvParts(c.mapper, s.mp);
    P.InvParts(c.reducer, s.rp);
  }

  /** A worker of the mapper inside an emit: its write takes any number of bytes of the rest of its frame that fit. */
  lemma AnyMapperWrite(c: Config, s: State, w: nat, k: nat)
    requires Inv(c, s) && !s.mctl.Exited? && w < |s.mp.hands| && s.mp.hands[w].Holding?
    ensures var h := s.mp.hands[w];
            && h.next < |c.mapper(h.job)|
            && (Enabled(c, s, MapperPool(P.Send(w, k)))
                <==> 1 <= k <= |Encode(Rec(c.mapper(h.job)[h.next]))| - h.sent
                     && k <= s.mp.out.cap - (|s.mp.out.hist| - s.mp.out.rd))
  {
    hide Inv, P.Shaped, Encode, P.Enabled;
    PoolsAreShaped(c, s);
    P.AnyWrite(c.mapper, s.mp, w, k);
  }

  /** And a worker of the reducer. */
  lemma AnyReducerWrite(c: Config, s: State, w: nat, k: nat)
    requires Inv(c, s) && !s.rctl.Collecting? && !s.rctl.Ended? && w < |s.rp.hands| && s.rp.hands[w].Holding?
    ensures var h := s.rp.hands[w];
            && h.next < |c.reducer(h.job)|
            && (Enabled(c, s, ReducerPool(P.Send(w, k)))
                <==> 1 <= k <= |Encode(Rec(c.reducer(h.job)[h.next]))| - h.sent
                     && k <= s.rp.out.cap - (|s.rp.out.hist| - s.rp.out.rd))
  {
    hide Inv, P.Shaped, Encode, P.Enabled;
    PoolsAreShaped(c, s);
    P.AnyWrite(c.reducer, s.rp, w, k);
  }

  /** Any worker may go on whenever it is not asleep, gone or waiting for the mutex. */
  lemma AnyMapperWorker(c: Config, s: State, w: nat) returns (a: P.Act<FileLine>)
    requires Inv(c, s) && !s.mctl.Exited? && P.MayStep(c.mapper, s.mp, w)
    ensures P.ByWorkers(a) && a.w == w && !a.Send? && Enabled(c, s, MapperPool(a))
  {
    hide Inv, P.Shaped, P.Enabled, P.MayStep;
    PoolsAreShaped(c, s);
    a := P.WorkerMayStep(c.mapper, s.mp, w);
  }

  lemma AnyReducerWorker(c: Config, s: State, w: nat) returns (a: P.Act<Group>)
    requires Inv(c, s) && !s.rctl.Collecting? && !s.rctl.Ended? && P.MayStep(c.reducer, s.rp, w)
    ensures P.ByWorkers(a) && a.w == w && !a.Send? && Enabled(c, s, ReducerPool(a))
  {
    hide Inv, P.Shaped, P.Enabled, P.MayStep;
    PoolsAreShaped(c, s);
    a := P.WorkerMayStep(c.reducer, s.rp, w);
  }

  /** Inside a push the controller goes on unless it sleeps, and its signal may wake any sleeping worker. */
  lemma AnyHandOver<J>(work: J -> seq<Record>, p: P.Pool<J>, x: J, sig: nat)
    requires M.Inv(p.q) && FeederOk(p, [x], false) && p.q.prods[0] != M.Asleep
    requires M.Asleep !in p.q.cons || (sig < |p.q.cons| && p.q.cons[sig] == M.Asleep)
    ensures P.Enabled(work, p, Feeding(p, x, sig))
  {
    M.CountSomebody(p.q.prods, M.Gone);
    assert p.q.prods[0] != M.Gone;
    hide M.Inv;
    M.AnythingMayHappen(p.q, 0, x, sig);
  }

  lemma FeedersAreOk(c: Config, s: State)
    requires Inv(c, s)
    ensures M.Inv(s.mp.q) && (s.mctl.Handing? ==> FeederOk(s.mp, [s.mctl.line], false))
    ensures M.Inv(s.rp.q) && (s.rctl.Pushing? && s.rctl.todo != [] ==> FeederOk(s.rp, [s.rctl.todo[0]], false))
  {
    hide FeederOk, InStep, Stream, P.Committed, Table, Nodes, M.Inv, P.Framed;
    P.InvParts(c.mapper, s.mp);
    P.InvParts(c.reducer, s.rp);
  }

  lemma AnyMapperHand(c: Config, s: State, sig: nat)
    requires Inv(c, s) && s.mctl.Handing?
    ensures |s.mp.q.prods| == 1
    ensures s.mp.q.prods[0] != M.Asleep
            && (M.Asleep !in s.mp.q.cons || (sig < |s.mp.q.cons| && s.mp.q.cons[sig] == M.Asleep)) ==>
              Enabled(c, s, MapperHand(sig))
  {
    hide Inv, P.Enabled, M.Inv;
    FeedersAreOk(c, s);
    if s.mp.q.prods[0] != M.Asleep
       && (M.Asleep !in s.mp.q.cons || (sig < |s.mp.q.cons| && s.mp.q.cons[sig] == M.Asleep)) {
      AnyHandOver(c.mapper, s.mp, s.mctl.line, sig);
    }
  }

  lemma AnyReducerHand(c: Config, s: State, sig: nat)
    requires Inv(c, s) && s.rctl.Pushing? && s.rctl.todo != []
    ensures |s.rp.q.prods| == 1
    ensures s.rp.q.prods[0] != M.Asleep
            && (M.Asleep !in s.rp.q.cons || (sig < |s.rp.q.cons| && s.rp.q.cons[sig] == M.Asleep)) ==>
              Enabled(c, s, ReducerHand(sig))
  {
    hide Inv, P.Enabled, M.Inv;
    FeedersAreOk(c, s);
    if s.rp.q.prods[0] != M.Asleep
       && (M.Asleep !in s.rp.q.cons || (sig < |s.rp.q.cons| && s.rp.q.cons[sig] == M.Asleep)) {
      AnyHandOver(c.reducer, s.rp, s.rctl.todo[0], sig);
    }
  }

  /** Main waits for the exit of each child, and a controller exits when all its workers have gone; for nothing else. */
  lemma WaitsForExit(c: Config, s: State)
    ensures s.main.AwaitMapper? ==> (Enabled(c, s, MainWaitMapper) <==> s.mctl.Exited?)
    ensures s.main.AwaitReducer? ==> (Enabled(c, s, MainWaitReducer) <==> s.rctl.Ended?)
    ensures s.mctl.Joining? ==>
              (Enabled(c, s, MapperExit) <==> forall w :: 0 <= w < |s.mp.q.cons| ==> s.mp.q.cons[w] == M.Gone)
    ensures s.rctl.Reaping? ==>
              (Enabled(c, s, ReducerExit) <==> forall w :: 0 <= w < |s.rp.q.cons| ==> s.rp.q.cons[w] == M.Gone)
  {
    hide P.Enabled;
  }
}
