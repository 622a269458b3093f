/** The pipeline never gets stuck and cannot run for ever: with pipes and queues of any capacity of at least one,
    although Main sends all its input before it reads any output. */
module PipelineProgress {
  import opened Collections
  import opened Wire
  import opened Pipes
  import opened Lines
  import opened Grouping
  import opened Output
  import opened Pipeline
  import opened PipelineSafety
  import opened PoolProgress
  import M = Monitor
  import P = Pool

  // ---------------------------------------------------------------- somebody can step

  /** A push in progress can always be moved on by its feeder or by a worker. */
  lemma PushMovesOn<J>(work: J -> seq<Record>, p: P.Pool<J>, x: J) returns (a: P.Act<J>)
    requires P.Inv(work, p) && FeederOk(p, [x], false) && |p.hands| > 0 && p.out.open && Unread(p.out) < p.out.cap
    ensures P.Enabled(work, p, a)
    ensures P.ByWorkers(a) || (p.q.prods[0] != M.Asleep && exists sig :: a == Feeding(p, x, sig))
  {
    hide P.Inv, P.Shaped, P.Framed, M.Inv, M.Settled;
    P.InvParts(work, p);
    if p.q.prods[0] == M.Asleep {
      var r := SomebodyCanStep(work, p);
      if r.None? { NotYetGone(p); }
      a := r.value;
    } else {
      FeederStands(p.q);
      var sig := M.Sleeper(p.q.cons);
      a := Feeding(p, x, sig);
    }
  }

  lemma FeederStands<J>(q: M.Queue<J>)
    requires M.Inv(q) && |q.prods| == 1
    ensures q.prods[0] != M.Gone
  {
    M.CountSomebody(q.prods, M.Gone);
  }

  lemma NotYetGone<J>(p: P.Pool<J>)
    requires M.Inv(p.q) && !p.q.closed && |p.q.cons| > 0
    ensures !M.AllGone(p.q)
  {
    if M.AllGone(p.q) {
      assert p.q.cons[0] == M.Gone;
      M.CountSomebody(p.q.cons, M.Gone);
    }
  }

  /** Once the queue is closed, some worker can step until all have gone. */
  lemma JoinMovesOn<J>(work: J -> seq<Record>, p: P.Pool<J>) returns (a: P.Act<J>)
    requires P.Inv(work, p) && p.q.closed && !M.AllGone(p.q) && p.out.open && Unread(p.out) < p.out.cap
    ensures P.Enabled(work, p, a) && P.ByWorkers(a)
  {
    hide P.Inv, P.Shaped, P.Framed, M.Inv;
    P.InvParts(work, p);
    var r := SomebodyCanStep(work, p);
    a := r.value;
  }

  /** A reader in step that holds an unfinished unit always wants at least one more byte. */
  lemma WantsMore(kind: Kind, hist: seq<Byte>, rd: nat, got: seq<Unit>, buf: seq<Byte>, all: seq<Unit>)
    requires InStep(hist, rd, got, buf, all) && (|got| < |all| ==> KindOf(all[|got|]) == kind)
    ensures Wanted(kind, buf) >= 1
  {
    if buf != [] {
      PrefixKnowsItsEnd(all[|got|], buf);
    }
  }

  lemma MapperReads(c: Config, s: State) returns (a: Act)
    requires Inv(c, s) && s.mctl.Reading? && (Unread(s.input) > 0 || !s.input.open)
    ensures Enabled(c, s, a) && !Spurious(a)
  {
    hide P.Inv, P.Enabled, FeederOk, ReducerOk, MainOk, Wanted, Encode, Stream, LinesFrom, CursorAfter, Sends,
         P.Committed, KindOf, KindFor;
    var buf := s.mctl.buf;
    Understood(c.units, c.files);
    if Unread(s.input) > 0 {
      if |s.seen1| < |c.units| { NextKind(c, s); }
      WantsMore(KindFor(s.mctl.cur), s.input.hist, s.input.rd, s.seen1, buf, c.units);
      a := MapperRead(1);
    } else {
      EndOfStream(s.input.hist, s.seen1, buf, c.units);
      a := MapperEof;
    }
  }

  lemma MapperPushes(c: Config, s: State) returns (a: Act)
    requires P.Inv(c.mapper, s.mp) && s.mctl.Handing? && FeederOk(s.mp, [s.mctl.line], false) && |s.mp.hands| > 0
    requires s.mp.out.open && Unread(s.mp.out) < s.mp.out.cap
    ensures Enabled(c, s, a) && !Spurious(a)
  {
    hide P.Inv, P.Enabled, Feeding;
    var pa := PushMovesOn(c.mapper, s.mp, s.mctl.line);
    if P.ByWorkers(pa) {
      a := MapperPool(pa);
    } else {
      var sig :| pa == Feeding(s.mp, s.mctl.line, sig);
      a := MapperHand(sig);
    }
  }

  lemma ReducerPushes(c: Config, s: State) returns (a: Act)
    requires P.Inv(c.reducer, s.rp) && s.rctl.Pushing? && s.rctl.todo != []
    requires FeederOk(s.rp, [s.rctl.todo[0]], false) && |s.rp.hands| > 0
    requires s.rp.out.open && Unread(s.rp.out) < s.rp.out.cap
    ensures Enabled(c, s, a) && !Spurious(a)
  {
    hide P.Inv, P.Enabled, Feeding;
    var pa := PushMovesOn(c.reducer, s.rp, s.rctl.todo[0]);
    if P.ByWorkers(pa) {
      a := ReducerPool(pa);
    } else {
      var sig :| pa == Feeding(s.rp, s.rctl.todo[0], sig);
      a := ReducerHand(sig);
    }
  }

  /** The mapper process moves on if its output has room and its input has bytes or has ended. */
  lemma MapperMovesOn(c: Config, s: State) returns (a: Act)
    requires Inv(c, s) && !s.mctl.Exited? && Unread(s.mp.out) < s.mp.out.cap
    requires s.mctl.Reading? ==> Unread(s.input) > 0 || !s.input.open
    ensures Enabled(c, s, a) && !Spurious(a)
  {
    hide P.Inv, P.Enabled, M.Settled, ReducerOk, MainOk, InputOk, LinesFrom, CursorAfter, Sends, P.Committed, Feeding,
         InStep;
    P.InvParts(c.mapper, s.mp);
    match s.mctl
    case Reading(_, _) => a := MapperReads(c, s);
    case Handing(_, _) => a := MapperPushes(c, s);
    case Closing => a := MapperShut;
    case Joining =>
      if M.AllGone(s.mp.q) {
        a := MapperExit;
      } else {
        var pa := JoinMovesOn(c.mapper, s.mp);
        a := MapperPool(pa);
      }
  }

  /** A collecting reducer moves on if there are bytes to read. */
  lemma CollectorReads(c: Config, s: State) returns (a: Act)
    requires Inv(c, s) && s.rctl.Collecting? && Unread(s.mp.out) > 0
    ensures Enabled(c, s, a) && !Spurious(a)
  {
    hide P.Inv, M.Settled, MapperOk, MainOk, Wanted, Encode, Stream, Sends, P.Committed, KindOf, FeederOk;
    P.InvParts(c.mapper, s.mp);
    P.CommittedRecords(c.mapper, s.mp);
    RecordKindOfRecord();
    WantsMore(RecordKind, s.mp.out.hist, s.mp.out.rd, s.seen2, s.rctl.buf, P.Committed(c.mapper, s.mp));
    a := ReducerRead(1);
  }

  lemma RecordKindOfRecord()
    ensures forall u: Unit :: u.Rec? ==> KindOf(u) == RecordKind
  {
  }

  /** A reducer past its collection moves on if its output has room. */
  lemma ReducerMovesOn(c: Config, s: State) returns (a: Act)
    requires Inv(c, s) && !s.rctl.Collecting? && !s.rctl.Ended? && Unread(s.rp.out) < s.rp.out.cap
    ensures Enabled(c, s, a) && !Spurious(a)
  {
    hide P.Inv, P.Enabled, M.Settled, MapperOk, MainOk, InputOk, Sends, P.Committed, InStep, Table, Nodes, RecordsIn,
         P.Sent, Feeding;
    P.InvParts(c.reducer, s.rp);
    match s.rctl
    case Pushing(todo) =>
      if todo == [] {
        a := ReducerShut;
      } else {
        a := ReducerPushes(c, s);
      }
    case Reaping =>
      if M.AllGone(s.rp.q) {
        a := ReducerExit;
      } else {
        var pa := JoinMovesOn(c.reducer, s.rp);
        a := ReducerPool(pa);
      }
  }

  lemma MainReads(c: Config, s: State) returns (a: Act)
    requires Inv(c, s) && s.main.Receiving? && Unread(s.rp.out) > 0
    ensures Enabled(c, s, a) && !Spurious(a)
  {
    hide P.Inv, M.Settled, MapperOk, ReducerOk, Wanted, Encode, Stream, Sends, P.Committed, KindOf, FileOf;
    P.InvParts(c.reducer, s.rp);
    P.CommittedRecords(c.reducer, s.rp);
    RecordKindOfRecord();
    WantsMore(RecordKind, s.rp.out.hist, s.rp.out.rd, s.seen3, s.main.buf, P.Committed(c.reducer, s.rp));
    a := MainReceive(1);
  }

  /** While Main still has input to send, Main itself, the mapper or the collecting reducer can step: this is what
      makes sending everything first safe. */
  lemma SenderMovesOn(c: Config, s: State) returns (a: Act)
    requires Inv(c, s) && s.main.Sending?
    ensures Enabled(c, s, a) && !Spurious(a)
  {
    hide P.Inv, M.Settled, FeederOk, Sends, InStep, Stream, LinesFrom, CursorAfter, Table, Nodes, RecordsIn, P.Sent,
         MainOk, P.Committed;
    P.InvParts(c.mapper, s.mp);
    if s.main.rest == [] {
      a := MainCloseInput;
    } else if Unread(s.input) < s.input.cap {
      a := MainSend(1);
    } else if Unread(s.mp.out) < s.mp.out.cap {
      a := MapperMovesOn(c, s);
    } else {
      a := CollectorReads(c, s);
    }
  }

  lemma ReceiverMovesOn(c: Config, s: State) returns (a: Act)
    requires Inv(c, s) && s.main.Receiving?
    ensures Enabled(c, s, a) && !Spurious(a)
  {
    hide P.Inv, M.Settled, FeederOk, Sends, Stream, LinesFrom, CursorAfter, Table, Nodes, RecordsIn, P.Sent,
         P.Committed, InStep;
    P.InvParts(c.mapper, s.mp);
    P.InvParts(c.reducer, s.rp);
    if Unread(s.rp.out) > 0 {
      a := MainReads(c, s);
    } else if s.rctl.Ended? {
      PoolEof(c.reducer, s.rp, s.seen3, s.main.buf);
      a := MainEof;
    } else if !s.rctl.Collecting? {
      a := ReducerMovesOn(c, s);
    } else if Unread(s.mp.out) > 0 {
      a := CollectorReads(c, s);
    } else if s.mctl.Exited? {
      PoolEof(c.mapper, s.mp, s.seen2, s.rctl.buf);
      a := ReducerEof;
    } else {
      a := MapperMovesOn(c, s);
    }
  }

  /** Deadlock freedom: in every state that satisfies the invariant and is not final, some step that is not a mere
      spurious wakeup is enabled. */
  lemma MovesOn(c: Config, s: State) returns (a: Act)
    requires Inv(c, s) && !s.main.Finished?
    ensures Enabled(c, s, a) && !Spurious(a)
  {
    hide P.Inv, FeederOk, Sends, Stream, InStep, MapperOk, InputOk, P.Committed, FileOf;
    match s.main
    case Sending(_) => a := SenderMovesOn(c, s);
    case Receiving(_, _) => a := ReceiverMovesOn(c, s);
    case AwaitMapper(_) => a := MainWaitMapper;
    case AwaitReducer(_) => a := MainWaitReducer;
  }

  // ---------------------------------------------------------------- every step but a spurious wakeup pays

  /** What the lines from the i-th on will cost once pushed. */
  ghost function LinesAhead(c: Config, i: nat): nat
    decreases |AllLines(c.files)| - i
  {
    if i >= |AllLines(c.files)| then 0 else ItemCost(c.mapper)(AllLines(c.files)[i]) + 3 + LinesAhead(c, i + 1)
  }

  ghost function NodesAhead(c: Config, todo: seq<Group>): nat
  {
    if todo == [] then 0 else ItemCost(c.reducer)(todo[0]) + 3 + NodesAhead(c, todo[1..])
  }

  ghost function MapperPhase(m: MapperCtl): nat
  {
    match m case Reading(_, _) => 3 case Handing(_, _) => 3 case Closing => 2 case Joining => 1 case Exited => 0
  }

  ghost function ReducerPhase(r: ReducerCtl): nat
  {
    match r case Collecting(_, _) => 3 case Pushing(_) => 2 case Reaping => 1 case Ended => 0
  }

  ghost function MainPhase(m: Main): nat
  {
    match m case Sending(_) => 4 case Receiving(_, _) => 3 case AwaitMapper(_) => 2 case AwaitReducer(_) => 1
            case Finished(_) => 0
  }

  /** The work left until the reducer has collected everything. */
  ghost function Upstream(c: Config, s: State): nat
    requires Inv(c, s)
  {
    P.InvParts(c.mapper, s.mp);
    (if s.main.Sending? then 2 * |s.main.rest| + 1 else 0) + Unread(s.input) + MapperPhase(s.mctl)
    + LinesAhead(c, |s.mp.q.pushed|) + Cost(c.mapper, s.mp) + (if s.rctl.Collecting? then 1 else 0)
  }

  /** The work left after that. */
  ghost function Downstream(c: Config, s: State): nat
    requires Inv(c, s)
  {
    P.InvParts(c.reducer, s.rp);
    Cost(c.reducer, s.rp) + NodesAhead(c, ToPush(s.rctl)) + ReducerPhase(s.rctl) + MainPhase(s.main)
  }

  /** The pair (Upstream, Downstream) goes down in the lexicographic order. */
  ghost predicate Pays(c: Config, s: State, s': State)
    requires Inv(c, s) && Inv(c, s')
  {
    Upstream(c, s') < Upstream(c, s) || (Upstream(c, s') == Upstream(c, s) && Downstream(c, s') < Downstream(c, s))
  }

  lemma MainPays(c: Config, s: State, a: Act)
    requires Inv(c, s) && Enabled(c, s, a) && Inv(c, Apply(c, s, a))
    requires a.MainSend? || a.MainCloseInput? || a.MainEof? || a.MainWaitMapper? || a.MainWaitReducer?
    ensures Pays(c, s, Apply(c, s, a))
  {
    hide P.Inv, P.Enabled, Cost, LinesAhead, NodesAhead, InStep, Stream, MapperOk, ReducerOk, MainOk, Sends, FileOf,
         RecordsIn;
  }

  lemma MainReceivePays(c: Config, s: State, k: nat)
    requires Inv(c, s) && Enabled(c, s, MainReceive(k)) && Inv(c, Apply(c, s, MainReceive(k)))
    ensures Pays(c, s, Apply(c, s, MainReceive(k)))
  {
    hide P.Inv, P.Apply, Cost, LinesAhead, NodesAhead, InStep, Stream, MapperOk, ReducerOk, MainOk, Sends, FileOf,
         RecordsIn, Complete, Decode, FileRecord, InputOk;
    P.InvParts(c.reducer, s.rp);
    DrainPays(c.reducer, s.rp, k);
  }

  lemma MapperReadPays(c: Config, s: State, k: nat)
    requires Inv(c, s) && Enabled(c, s, MapperRead(k)) && Inv(c, Apply(c, s, MapperRead(k)))
    ensures Pays(c, s, Apply(c, s, MapperRead(k)))
  {
    hide P.Inv, P.Enabled, Cost, LinesAhead, NodesAhead, InStep, Stream, MapperOk, ReducerOk, MainOk, Sends, Complete,
         Decode, Advance, Delivered, KindFor, Wanted;
  }

  lemma ReducerReadPays(c: Config, s: State, k: nat)
    requires Inv(c, s) && Enabled(c, s, ReducerRead(k)) && Inv(c, Apply(c, s, ReducerRead(k)))
    ensures Pays(c, s, Apply(c, s, ReducerRead(k)))
  {
    hide P.Inv, P.Apply, Cost, LinesAhead, NodesAhead, InStep, Stream, MapperOk, ReducerOk, MainOk, Sends, Complete,
         Decode, AddPair, Wanted, InputOk;
    P.InvParts(c.mapper, s.mp);
    DrainStep(c.mapper, s.mp, k);
    DrainPays(c.mapper, s.mp, k);
  }

  lemma EofPays(c: Config, s: State, a: Act)
    requires Inv(c, s) && Enabled(c, s, a) && Inv(c, Apply(c, s, a)) && (a.MapperEof? || a.ReducerEof?)
    ensures Pays(c, s, Apply(c, s, a))
  {
    hide P.Inv, P.Enabled, Cost, LinesAhead, NodesAhead, InStep, Stream, MapperOk, ReducerOk, MainOk, Sends, InputOk,
         Nodes;
  }

  /** Unpushed lines are exactly the ones ahead. */
  lemma LineIsAhead(c: Config, s: State)
    requires Inv(c, s) && s.mctl.Handing?
    ensures LinesAhead(c, |s.mp.q.pushed|) == ItemCost(c.mapper)(s.mctl.line) + 3 + LinesAhead(c, |s.mp.q.pushed| + 1)
  {
    hide P.Inv, Cost, NodesAhead, Stream, ReducerOk, MainOk, Sends, InputOk, LinesFrom, CursorAfter, Encode, FeederOk,
         P.Committed;
    Understood(c.units, c.files);
    var seen := s.seen1;
    assert c.units == seen + c.units[|seen|..];
    Append(Between, seen, c.units[|seen|..]);
    assert AllLines(c.files)
        == s.mp.q.pushed + [s.mctl.line] + LinesFrom(CursorAfter(Between, seen), c.units[|seen|..]);
    assert AllLines(c.files)[|s.mp.q.pushed|] == s.mctl.line;
  }

  lemma MapperHandPays(c: Config, s: State, sig: nat)
    requires Inv(c, s) && Enabled(c, s, MapperHand(sig)) && Inv(c, Apply(c, s, MapperHand(sig)))
    ensures Pays(c, s, Apply(c, s, MapperHand(sig)))
  {
    hide P.Inv, P.Apply, P.Enabled, Cost, LinesAhead, NodesAhead, InStep, Stream, ReducerOk, MainOk, Sends, InputOk,
         LinesFrom, CursorAfter, M.Settled, ItemCost;
    P.InvParts(c.mapper, s.mp);
    LineIsAhead(c, s);
    FeedCharges(c.mapper, s.mp, Feeding(s.mp, s.mctl.line, sig), s.mctl.line);
    assert FeederOk(s.mp, [s.mctl.line], false);
    FeederPushes(c.mapper, s.mp, s.mctl.line, sig);
  }

  lemma ReducerHandPays(c: Config, s: State, sig: nat)
    requires Inv(c, s) && Enabled(c, s, ReducerHand(sig)) && Inv(c, Apply(c, s, ReducerHand(sig)))
    ensures Pays(c, s, Apply(c, s, ReducerHand(sig)))
  {
    hide P.Inv, P.Apply, P.Enabled, Cost, LinesAhead, InStep, Stream, MapperOk, MainOk, Sends, InputOk, LinesFrom,
         CursorAfter, M.Settled, ItemCost, Table, Nodes, RecordsIn, P.Sent;
    P.InvParts(c.reducer, s.rp);
    var x := s.rctl.todo[0];
    FeedCharges(c.reducer, s.rp, Feeding(s.rp, x, sig), x);
    assert FeederOk(s.rp, [x], false);
    FeederPushes(c.reducer, s.rp, x, sig);
  }

  lemma MapperEndPays(c: Config, s: State, a: Act)
    requires Inv(c, s) && Enabled(c, s, a) && Inv(c, Apply(c, s, a)) && (a.MapperShut? || a.MapperExit?)
    ensures Pays(c, s, Apply(c, s, a))
  {
    hide P.Inv, P.Apply, P.Enabled, LinesAhead, NodesAhead, InStep, Stream, ReducerOk, MainOk, Sends, InputOk,
         LinesFrom, CursorAfter, M.Settled, ThreadCost, SumNat;
    P.InvParts(c.mapper, s.mp);
    if a.MapperShut? {
      hide Cost;
      ShutPays(c.mapper, s.mp);
      FeederShuts(c.mapper, s.mp);
    }
  }

  lemma ReducerEndPays(c: Config, s: State, a: Act)
    requires Inv(c, s) && Enabled(c, s, a) && Inv(c, Apply(c, s, a)) && (a.ReducerShut? || a.ReducerExit?)
    ensures Pays(c, s, Apply(c, s, a))
  {
    hide P.Inv, P.Apply, P.Enabled, LinesAhead, NodesAhead, InStep, Stream, MapperOk, MainOk, Sends, InputOk,
         M.Settled, ThreadCost, SumNat, Table, Nodes, RecordsIn, P.Sent;
    P.InvParts(c.reducer, s.rp);
    if a.ReducerShut? {
      hide Cost;
      ShutPays(c.reducer, s.rp);
      FeederShuts(c.reducer, s.rp);
    }
  }

  lemma PoolsPay(c: Config, s: State, a: Act)
    requires Inv(c, s) && Enabled(c, s, a) && Inv(c, Apply(c, s, a)) && !Spurious(a)
    requires (a.MapperPool? || a.ReducerPool?)
    ensures Pays(c, s, Apply(c, s, a))
  {
    hide P.Inv, P.Apply, P.Enabled, Cost, LinesAhead, NodesAhead, InStep, Stream, MapperOk, ReducerOk, MainOk, Sends,
         InputOk, P.Shaped;
    P.InvParts(c.mapper, s.mp);
    P.InvParts(c.reducer, s.rp);
    if a.MapperPool? {
      WorkerStepPays(c.mapper, s.mp, a.ma);
      P.LeavesControllerAlone(c.mapper, s.mp, a.ma);
    } else {
      WorkerStepPays(c.reducer, s.rp, a.ra);
    }
  }

  lemma StepPays(c: Config, s: State, a: Act)
    requires Inv(c, s) && Enabled(c, s, a) && !Spurious(a)
    ensures Inv(c, Apply(c, s, a)) && Pays(c, s, Apply(c, s, a))
  {
    hide Inv, Enabled, Apply, Pays;
    StepInv(c, s, a);
    match a
    case MainReceive(k) => MainReceivePays(c, s, k);
    case MapperRead(k) => MapperReadPays(c, s, k);
    case ReducerRead(k) => ReducerReadPays(c, s, k);
    case MapperEof => EofPays(c, s, a);
    case ReducerEof => EofPays(c, s, a);
    case MapperHand(sig) => MapperHandPays(c, s, sig);
    case ReducerHand(sig) => ReducerHandPays(c, s, sig);
    case MapperShut => MapperEndPays(c, s, a);
    case MapperExit => MapperEndPays(c, s, a);
    case ReducerShut => ReducerEndPays(c, s, a);
    case ReducerExit => ReducerEndPays(c, s, a);
    case MapperPool(_) => PoolsPay(c, s, a);
    case ReducerPool(_) => PoolsPay(c, s, a);
    case _ => MainPays(c, s, a);
  }

  // ---------------------------------------------------------------- whole runs

  /** Deadlock freedom over runs: after any schedule, a state that is not final has an enabled step other than a
      spurious wakeup. */
  lemma NeverStuck(c: Config, s0: State, acts: seq<Act>)
    requires Initial(c, s0) && Schedule(c, s0, acts) && !After(c, s0, acts).main.Finished?
    ensures exists a :: Enabled(c, After(c, s0, acts), a) && !Spurious(a)
  {
    hide Initial, Enabled;
    InitialInv(c, s0);
    ScheduleInv(c, s0, acts);
    var a := MovesOn(c, After(c, s0, acts));
  }

  /** An endless run, given by its states and steps. */
  ghost predicate Endless(c: Config, run: nat -> State, acts: nat -> Act)
  {
    Initial(c, run(0)) && forall i: nat :: Enabled(c, run(i), acts(i)) && run(i + 1) == Apply(c, run(i), acts(i))
  }

  lemma {:induction false} EndlessInv(c: Config, run: nat -> State, acts: nat -> Act, i: nat)
    requires Endless(c, run, acts)
    ensures Inv(c, run(i))
  {
    hide Inv, Initial, Enabled, Apply;
    if i == 0 {
      InitialInv(c, run(0));
    } else {
      EndlessInv(c, run, acts, i - 1);
      StepInv(c, run(i - 1), acts(i - 1));
      assert run(i - 1 + 1) == Apply(c, run(i - 1), acts(i - 1));
    }
  }

  /** The only way to run for ever is to be woken spuriously for ever: after every point of an endless run there is
      another spurious wakeup. */
  lemma EndlessRunsWakeForEver(c: Config, run: nat -> State, acts: nat -> Act, i: nat)
    requires Endless(c, run, acts)
    ensures exists j: nat :: i <= j && Spurious(acts(j))
  {
    EndlessInv(c, run, acts, i);
    WakesAgain(c, run, acts, i);
  }

  lemma {:induction false} WakesAgain(c: Config, run: nat -> State, acts: nat -> Act, i: nat)
    requires Endless(c, run, acts) && Inv(c, run(i))
    ensures exists j: nat :: i <= j && Spurious(acts(j))
    decreases Upstream(c, run(i)), Downstream(c, run(i))
  {
    hide Inv, Initial, Enabled, Apply, Upstream, Downstream;
    if !Spurious(acts(i)) {
      StepInv(c, run(i), acts(i));
      StepPays(c, run(i), acts(i));
      WakesAgain(c, run, acts, i + 1);
    }
  }

  /** Every run can be completed, and then FinishedRunIsCorrect applies to it. */
  lemma {:induction false} CanFinish(c: Config, s: State) returns (acts: seq<Act>)
    requires Inv(c, s)
    ensures Schedule(c, s, acts) && After(c, s, acts).main.Finished?
    decreases Upstream(c, s), Downstream(c, s)
  {
    hide Inv, Enabled, Apply, Upstream, Downstream;
    if s.main.Finished? {
      acts := [];
    } else {
      var a := MovesOn(c, s);
      StepPays(c, s, a);
      var rest := CanFinish(c, Apply(c, s, a));
      acts := [a] + rest;
      assert acts[1..] == rest;
    }
  }

  /** A pool before its start: `workers` threads, a queue of capacity `queue`, an output pipe of `pipe` bytes. */
  ghost function Fresh<J>(workers: nat, queue: nat, pipe: nat): P.Pool<J>
  {
    P.Pool(M.Queue(queue, [], false, [M.Ready], map[], seq(workers, i => M.Ready), [], []),
           seq(workers, i => P.Free), None, Pipe(pipe, [], 0, true), [], seq(workers, i => []), 0)
  }

  lemma FreshIsInitial<J>(workers: nat, queue: nat, pipe: nat)
    requires queue > 0 && pipe > 0
    ensures var p: P.Pool<J> := Fresh(workers, queue, pipe);
            P.Initial(p) && p.out.open && |p.hands| == workers && p.q.cap == queue && p.out.cap == pipe
  {
  }

  /** Any job whatever, with any thread counts and any capacities of at least one, has a run that finishes. */
  lemma EveryJobCanFinish(c: Config, input: nat, workers: (nat, nat), queues: (nat, nat), pipes: (nat, nat))
      returns (s0: State, acts: seq<Act>)
    requires ValidConfig(c) && input > 0 && workers.0 > 0 && workers.1 > 0
    requires queues.0 > 0 && queues.1 > 0 && pipes.0 > 0 && pipes.1 > 0
    ensures Initial(c, s0) && |s0.mp.hands| == workers.0 && |s0.rp.hands| == workers.1 && s0.input.cap == input
    ensures s0.mp.q.cap == queues.0 && s0.rp.q.cap == queues.1 && s0.mp.out.cap == pipes.0 && s0.rp.out.cap == pipes.1
    ensures Schedule(c, s0, acts) && After(c, s0, acts).main.Finished?
  {
    s0 := State(Sending(Stream(c.units)), Pipe(input, [], 0, true),
                Reading(Between, []), Fresh(workers.0, queues.0, pipes.0),
                Collecting([], EmptyTable(c.layout)), Fresh(workers.1, queues.1, pipes.1), [], [], []);
    hide P.Initial, Inv, Schedule, After, Fresh;
    FreshIsInitial<FileLine>(workers.0, queues.0, pipes.0);
    FreshIsInitial<Group>(workers.1, queues.1, pipes.1);
    InitialInv(c, s0);
    acts := CanFinish(c, s0);
  }
}
