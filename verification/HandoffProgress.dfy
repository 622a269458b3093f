/** The hand-off of Handoff ends: whatever fails, somebody can step until the exit, and only spurious wakeups can put
    the exit off; and a failing push that stores its element does occur in some run of every non-empty table. */
module HandoffProgress {
  import opened Collections
  import opened Handoff
  import opened HandoffSafety
  import PP = PoolProgress
  import M = Monitor

  // ---------------------------------------------------------------- every step but a spurious wakeup pays

  ghost function HandCost(): Worker -> nat
  {
    (w: Worker) => match w case Unborn => 1 case Free => 0 case Has(_) => 3 case Done(_) => 2
  }

  ghost function CtlCost(c: Config, ctl: Ctl): nat
  {
    var size := |c.head|;
    match ctl
    case Starting(_) => 2 * size + 7
    case Walking(b, _) => if b < size then 2 * (size - b) + 6 else 0
    case Saved(b, _, _) => if b < size then 2 * (size - b) + 5 else 0
    case Abandoning(b, _, _) => if b < size then 2 * (size - b) + 4 else 0
    case Waiting(b, _, _) => if b < size then 2 * (size - b) + 3 else 0
    case Sweeping(b, _) => if b < size then 2 * (size - b) + 2 else 0
    case Freeing(b, _, _) => if b < size then 2 * (size - b) + 1 else 0
    case Closing => 2
    case Joining => 1
    case Exit(_) => 0
  }

  /** What the queue and the threads at it may still cost. */
  ghost function QueueCost(q: M.Queue<nat>): nat
  {
    8 * |q.items| + PP.ThreadCost(q.cons) + PP.ThreadCost(q.prods) + if q.closed then 0 else |q.cons| + 1
  }

  /** A bound on the steps still to come. */
  ghost function Cost(c: Config, s: State): nat
  {
    64 * |Owned(c, s.ctl, s.ahead)| + QueueCost(s.q) + SumNat(HandCost(), s.hands) + 16 * CtlCost(c, s.ctl)
  }

  lemma AnySignalCost(ts: seq<M.Thread>, sig: nat)
    ensures PP.ThreadCost(M.Signal(ts, sig)) <= PP.ThreadCost(ts) + 1
  {
    if sig < |ts| && ts[sig] == M.Asleep {
      M.CountUpdate(ts, sig, M.Awake);
    }
  }

  lemma EnterCost(q: M.Queue<nat>, x: nat)
    requires M.Enabled(q, M.Enter(0, x))
    ensures QueueCost(M.Apply(q, M.Enter(0, x))) < QueueCost(q)
  {
    PP.MoveCost(q.prods, 0, M.Entering);
  }

  lemma PushCost(q: M.Queue<nat>, sig: nat)
    requires Sound(q) && M.Enabled(q, M.Push(0, sig))
    ensures QueueCost(M.Apply(q, M.Push(0, sig))) <= QueueCost(q) + if |q.items| < q.cap then 10 else -1
  {
    hide PP.ThreadCost;
    PP.MoveCost(q.prods, 0, if |q.items| < q.cap then M.Ready else M.Asleep);
    AnySignalCost(q.cons, sig);
  }

  lemma OneReadyCost()
    ensures PP.ThreadCost([M.Ready]) == 2
  {
    assert multiset([M.Ready]) == multiset{M.Ready};
  }

  lemma RetreatCost(q: M.Queue<nat>)
    requires |q.prods| == 1
    ensures QueueCost(Retreat(q)) <= QueueCost(q) + 2
  {
    OneReadyCost();
  }

  lemma StoreCost(ctl: Ctl, q: M.Queue<nat>, sig: nat)
    requires AtQueue(ctl, q) && Sound(q) && InCriticalSection(q) && |q.items| < q.cap
    ensures QueueCost(M.Store(q, 0, q.hand[0], sig)) <= QueueCost(q) + 11
  {
    StoreKeeps(ctl, q, sig);
    hide PP.ThreadCost;
    OneReadyCost();
    AnySignalCost(q.cons, sig);
  }

  lemma CloseCost(q: M.Queue<nat>)
    requires !q.closed
    ensures QueueCost(M.Apply(q, M.Close)) < QueueCost(q)
  {
    hide PP.ThreadCost;
    PP.BroadcastCost(q.cons);
  }

  lemma PopCost(q: M.Queue<nat>, i: nat, sig: nat)
    requires M.Enabled(q, M.Pop(i, sig))
    ensures QueueCost(M.Apply(q, M.Pop(i, sig))) < QueueCost(q) - if q.items == [] then 0 else 5
  {
    hide PP.ThreadCost;
    PP.MoveCost(q.cons, i, if q.items != [] then M.Ready else if q.closed then M.Gone else M.Asleep);
    AnySignalCost(q.prods, sig);
  }

  /** What the controller's steps do to its own part of the cost. */
  lemma CtlPays(c: Config, s: State, a: Act)
    requires Placed(c, s.ctl, s.ahead) && Enabled(c, s, a) && ByController(a)
    ensures CtlCost(c, Apply(c, s, a).ctl) <= CtlCost(c, s.ctl) + if HandedOut(s, a) != [] then 1 else 0
    ensures !a.Enter? && !a.Push? && !a.SweepFree? ==> CtlCost(c, Apply(c, s, a).ctl) < CtlCost(c, s.ctl)
  {
    hide IsList, Mine, Head, ChainAt, Next, Tail, AllDone, M.Apply, M.Store, Retreat;
  }

  lemma WakesOne(ts: seq<M.Thread>, i: nat)
    requires i < |ts| && ts[i] == M.Asleep
    ensures PP.ThreadCost(ts[i := M.Awake]) == PP.ThreadCost(ts) + 1
  {
    M.CountUpdate(ts, i, M.Awake);
  }

  lemma WakeCost(q: M.Queue<nat>, a: M.Act<nat>)
    requires M.Enabled(q, a) && (a.WakeProducer? || a.WakeConsumer?)
    ensures QueueCost(M.Apply(q, a)) == QueueCost(q) + 1
  {
    hide PP.ThreadCost;
    if a.WakeProducer? { WakesOne(q.prods, a.p); } else { WakesOne(q.cons, a.c); }
  }

  lemma QueueParts(c: Config, s: State)
    requires Orderly(c, s)
    ensures AtQueue(s.ctl, s.q) && Sound(s.q) && (s.q.closed ==> MayBeClosed(s.ctl))
  {
  }

  /** What the controller's steps do to the queue's part of the cost. */
  lemma QueuePays(c: Config, s: State, a: Act)
    requires Orderly(c, s) && Enabled(c, s, a) && ByController(a)
    ensures var s' := Apply(c, s, a);
            && s'.hands == s.hands
            && QueueCost(s'.q) <= QueueCost(s.q) + 11
            && (a.Enter? || (a.Push? && |s.q.items| >= s.q.cap) ==> QueueCost(s'.q) < QueueCost(s.q))
  {
    hide Orderly, AtQueue, Sound, QueueCost, M.Apply, M.Enabled, Mine, Head, ChainAt, Next, Tail, AllDone, Retreat,
         M.Store;
    QueueParts(c, s);
    match a
    case Enter => EnterCost(s.q, s.ctl.node.value);
    case Push(sig) => PushCost(s.q, sig);
    case PushFails => RetreatCost(s.q);
    case PushFailsStored(sig) => StoreCost(s.ctl, s.q, sig);
    case CloseFailed => CloseCost(s.q);
    case Close => CloseCost(s.q);
    case _ =>
  }

  lemma HandOutIs(c: Config, s: State, a: Act)
    requires Placed(c, s.ctl, s.ahead) && Enabled(c, s, a) && ByController(a)
    ensures (a.Push? && |s.q.items| < s.q.cap) || a.SweepFree? ==> |HandedOut(s, a)| == 1
    ensures a.Push? && |s.q.items| >= s.q.cap ==> HandedOut(s, a) == []
    ensures a.Push? && |s.q.items| >= s.q.cap ==> Apply(c, s, a).ctl == s.ctl
    ensures a.Enter? ==> HandedOut(s, a) == [] && Apply(c, s, a).ctl == s.ctl
  {
    hide IsList, M.Apply;
  }

  lemma ControllerPays(c: Config, s: State, a: Act)
    requires Orderly(c, s) && Enabled(c, s, a) && ByController(a)
    ensures Cost(c, Apply(c, s, a)) < Cost(c, s)
  {
    hide ValidConfig, Placed, AtQueue, Sound, M.Inv, Crewed, Staffed, Dismissed, QueueCost, CtlCost, Enabled, Apply,
         Owned,
         HandedOut;
    ControllerMoves(c, s, a);
    CtlPays(c, s, a);
    QueuePays(c, s, a);
    HandOutIs(c, s, a);
  }

  lemma HandPays(hands: seq<Worker>, i: nat, w: Worker)
    requires i < |hands| && HandCost()(w) < HandCost()(hands[i])
    ensures SumNat(HandCost(), hands[i := w]) < SumNat(HandCost(), hands)
  {
    SumNatUpdate(HandCost(), hands, i, w);
  }

  lemma TakeCharges(hands: seq<Worker>, i: nat, n: nat)
    requires i < |hands| && hands[i].Free?
    ensures SumNat(HandCost(), hands[i := Has(n)]) == SumNat(HandCost(), hands) + 3
  {
    SumNatUpdate(HandCost(), hands, i, Has(n));
  }

  lemma PopPays(c: Config, s: State, i: nat, sig: nat)
    requires Enabled(c, s, Pop(i, sig))
    ensures Cost(c, Apply(c, s, Pop(i, sig))) < Cost(c, s)
  {
    hide QueueCost, SumNat, Owned, CtlCost, M.Apply, M.Enabled, HandCost;
    PopCost(s.q, i, sig);
    if s.q.items != [] { TakeCharges(s.hands, i, s.q.items[|s.q.items| - 1]); }
  }

  lemma WorkerPays(c: Config, s: State, a: Act)
    requires Orderly(c, s) && Enabled(c, s, a) && (a.Create? || a.Reduce? || a.Release?)
    ensures Cost(c, Apply(c, s, a)) < Cost(c, s)
  {
    assert a.Create? ==> s.hands[s.ctl.created].Unborn?;
    hide Orderly, QueueCost, SumNat, FlatFrom, All, M.Apply, M.Enabled, Mine;
    var i := if a.Create? then s.ctl.created else a.i;
    HandPays(s.hands, i, Apply(c, s, a).hands[i]);
  }

  /** Every step but a spurious wakeup brings the exit nearer, whatever fails. */
  lemma StepPays(c: Config, s: State, a: Act)
    requires Orderly(c, s) && Enabled(c, s, a) && !Spurious(a)
    ensures Cost(c, Apply(c, s, a)) < Cost(c, s)
  {
    hide Orderly, Enabled, Apply, Cost;
    if ByController(a) {
      ControllerPays(c, s, a);
    } else if a.Pop? {
      PopPays(c, s, a.i, a.sig);
    } else {
      WorkerPays(c, s, a);
    }
  }

  /** And a spurious wakeup costs next to nothing. */
  lemma SpuriousCosts(c: Config, s: State, a: Act)
    requires Enabled(c, s, a) && Spurious(a)
    ensures Cost(c, Apply(c, s, a)) == Cost(c, s) + 1
  {
    hide QueueCost, M.Apply, Owned, CtlCost;
    WakeCost(s.q, if a.WakeController? then M.WakeProducer(0) else M.WakeConsumer(a.i));
  }

  // ---------------------------------------------------------------- somebody can step

  predicate Failing(a: Act) { a.GiveUp? || a.CreateFails? || a.PushFails? || a.PushFailsStored? }

  /** A worker that exists and is neither asleep nor gone can step. */
  lemma WorkerCanStep(c: Config, s: State, i: nat) returns (a: Act)
    requires i < |s.hands| == |s.q.cons| && !s.hands[i].Unborn? && (s.q.cons[i] == M.Ready || s.q.cons[i] == M.Awake)
    ensures Enabled(c, s, a) && !Failing(a) && !Spurious(a)
  {
    match s.hands[i]
    case Free => a := Pop(i, M.Sleeper(s.q.prods));
    case Has(_) => a := Reduce(i);
    case Done(_) => a := Release(i);
  }

  /** If the controller sleeps in a push, no wakeup has been lost: some worker is awake and can step. */
  lemma SleeperHasWorker(c: Config, s: State) returns (i: nat)
    requires Orderly(c, s) && s.ctl.Saved? && s.q.prods[0] == M.Asleep
    ensures i < |s.hands| == |s.q.cons| && !s.hands[i].Unborn? && (s.q.cons[i] == M.Ready || s.q.cons[i] == M.Awake)
  {
    hide Placed, ValidConfig, M.Inv, AllDone;
    WorkersExist(c);
    assert M.Awake !in s.q.prods && M.Asleep in s.q.prods && !s.q.closed;
    M.NeverBothBlocked(s.q);
    assert s.q.cons[0] != M.Gone && s.q.cons[0] != M.Entering;
    if s.q.cons[0] == M.Asleep {
      i :| 0 <= i < |s.q.cons| && s.q.cons[i] == M.Awake;
    } else {
      i := 0;
    }
  }

  lemma PusherCanStep(c: Config, s: State) returns (a: Act)
    requires Orderly(c, s) && s.ctl.Saved?
    ensures Enabled(c, s, a) && !Failing(a) && !Spurious(a)
  {
    assert |s.q.prods| == 1 && !s.q.closed && s.ctl.node.Some?;
    if s.q.prods[0] == M.Asleep {
      var i := SleeperHasWorker(c, s);
      a := WorkerCanStep(c, s, i);
    } else if s.q.prods[0] == M.Ready {
      a := Enter;
    } else {
      a := Push(M.Sleeper(s.q.cons));
    }
  }

  lemma JoinerCanStep(c: Config, s: State) returns (a: Act)
    requires Orderly(c, s) && (s.ctl.Waiting? || s.ctl.Joining?)
    ensures Enabled(c, s, a) && !Failing(a) && !Spurious(a)
  {
    hide ValidConfig, Placed, AtQueue, M.Inv, Staffed;
    if AllDone(s.hands, s.q.cons) {
      a := if s.ctl.Waiting? then JoinFailed else Join;
    } else {
      var i :| 0 <= i < |s.hands| && !s.hands[i].Unborn? && s.q.cons[i] != M.Gone;
      a := WorkerCanStep(c, s, i);
    }
  }

  lemma StandsRight(c: Config, s: State)
    requires Orderly(c, s)
    ensures s.ctl.Starting? ==> s.ctl.created <= |s.hands|
    ensures s.ctl.Freeing? ==> s.ctl.node.Some?
  {
    hide ValidConfig, AtQueue, Sound, M.Inv, Crewed, Dismissed;
  }

  /** Before the exit somebody can take a step that neither fails nor is a spurious wakeup. After a push that failed
      without a signal this holds too: whoever missed its wakeup is woken by the close. */
  lemma NeverStuck(c: Config, s: State) returns (a: Act)
    requires Orderly(c, s) && !s.ctl.Exit?
    ensures Enabled(c, s, a) && !Failing(a) && !Spurious(a)
  {
    StandsRight(c, s);
    hide Orderly;
    match s.ctl
    case Starting(k) => a := if k < |s.hands| then Create else Begin;
    case Walking(_, node) => a := if node.None? then NextBucket else SaveNext;
    case Saved(_, _, _) => a := PusherCanStep(c, s);
    case Abandoning(_, _, _) => a := CloseFailed;
    case Waiting(_, _, _) => a := JoinerCanStep(c, s);
    case Sweeping(_, node) => a := if node.None? then SweepBucket else SweepSave;
    case Freeing(_, _, _) => a := SweepFree;
    case Closing => a := Close;
    case Joining => a := JoinerCanStep(c, s);
  }

  // ---------------------------------------------------------------- every run ends, at an exit

  /** From every state of every run an exit can be reached without a further failure. */
  lemma {:induction false} ReachesExit(c: Config, s: State) returns (acts: seq<Act>)
    requires Orderly(c, s)
    ensures Schedule(c, s, acts) && After(c, s, acts).ctl.Exit? && forall a :: a in acts ==> !Failing(a)
    decreases Cost(c, s)
  {
    hide Orderly, Enabled, Apply, Cost;
    if s.ctl.Exit? {
      acts := [];
    } else {
      var a := NeverStuck(c, s);
      StepOrderly(c, s, a);
      StepPays(c, s, a);
      var rest := ReachesExit(c, Apply(c, s, a));
      acts := [a] + rest;
      assert acts[1..] == rest;
    }
  }

  /** How many steps of a schedule are spurious wakeups. */
  ghost function Wakeups(acts: seq<Act>): nat
  {
    if acts == [] then 0 else (if Spurious(acts[0]) then 1 else 0) + Wakeups(acts[1..])
  }

  /** No run is longer than the cost of its first state, but for two steps for every spurious wakeup. */
  lemma {:induction false} RunsEnd(c: Config, s: State, acts: seq<Act>)
    requires Orderly(c, s) && Schedule(c, s, acts)
    ensures |acts| + Cost(c, After(c, s, acts)) <= Cost(c, s) + 2 * Wakeups(acts)
    decreases |acts|
  {
    hide Orderly, Enabled, Apply, Cost, Spurious;
    if acts != [] {
      StepOrderly(c, s, acts[0]);
      if Spurious(acts[0]) { SpuriousCosts(c, s, acts[0]); } else { StepPays(c, s, acts[0]); }
      RunsEnd(c, Apply(c, s, acts[0]), acts[1..]);
    }
  }

  // ---------------------------------------------------------------- the failures do occur

  /** On the way to the first push: nothing pushed yet, and something left to push. */
  ghost predicate BeforeFirstPush(c: Config, s: State)
  {
    && Orderly(c, s) && s.q.pushed == [] && Owned(c, s.ctl, s.ahead) != []
    && (s.ctl.Starting? || s.ctl.Walking? || (s.ctl.Saved? && s.q.prods[0] != M.Asleep))
  }

  predicate FailedPush(a: Act) { a.PushFails? || a.PushFailsStored? }

  /** The next step towards the first push, or into its failure. */
  ghost function Approach(s: State, failure: Act): Act
  {
    match s.ctl
    case Starting(k) => if k < |s.hands| then Create else Begin
    case Walking(_, node) => if node.None? then NextBucket else SaveNext
    case _ => if |s.q.prods| > 0 && s.q.prods[0] == M.Ready then Enter else failure
  }

  lemma ApproachEnabled(c: Config, s: State, failure: Act)
    requires BeforeFirstPush(c, s) && FailedPush(failure)
    ensures var a := Approach(s, failure);
            Enabled(c, s, a) && !Spurious(a) && (a == failure || (!Failing(a) && !FailedPush(a)))
  {
    hide FlatFrom, IsList, Distinct, All, M.Inv, Crewed, Owned;
    WorkersExist(c);
    NobodyPushed(s.q);
  }

  lemma NobodyLeft(c: Config, ctl: Ctl, ahead: seq<nat>)
    requires ctl == Closing
    ensures Owned(c, ctl, ahead) == []
  {
  }

  lemma ApproachGoesOn(c: Config, s: State, failure: Act)
    requires BeforeFirstPush(c, s) && FailedPush(failure)
    requires Enabled(c, s, Approach(s, failure)) && !FailedPush(Approach(s, failure))
    ensures BeforeFirstPush(c, Apply(c, s, Approach(s, failure)))
  {
    hide Orderly, ValidConfig, Placed, FlatFrom, All, Head, ChainAt, Next, Tail, Mine;
    var a := Approach(s, failure);
    OrderlyParts(c, s);
    StepOrderly(c, s, a);
    NobodyLeft(c, Closing, Apply(c, s, a).ahead);
    if !a.Create? {
      ControllerMoves(c, s, a);
    }
  }

  lemma OrderlyParts(c: Config, s: State)
    requires Orderly(c, s)
    ensures ValidConfig(c) && Placed(c, s.ctl, s.ahead) && AtQueue(s.ctl, s.q)
  {
  }

  lemma BeforeIsOrderly(c: Config, s: State)
    requires BeforeFirstPush(c, s)
    ensures Orderly(c, s)
  {
  }

  /** The first push fails in the given way, nothing else fails, and the run ends at the failing exit. */
  lemma {:induction false} FailsAtFirstPush(c: Config, s: State, failure: Act) returns (acts: seq<Act>)
    requires BeforeFirstPush(c, s) && FailedPush(failure)
    ensures Schedule(c, s, acts) && After(c, s, acts).ctl == Exit(false)
    ensures failure in acts && forall a :: a in acts && Failing(a) ==> a == failure
    decreases Cost(c, s)
  {
    hide BeforeFirstPush, Orderly, Enabled, Apply, Cost, Approach, FailedPush, Failing;
    var a := Approach(s, failure);
    ApproachEnabled(c, s, failure);
    BeforeIsOrderly(c, s);
    StepOrderly(c, s, a);
    StepPays(c, s, a);
    var rest;
    if a == failure {
      rest := ReachesExit(c, Apply(c, s, a));
      FailureLeaves(c, s, a);
      LeavingKept(c, Apply(c, s, a), rest);
      LeavingExit(After(c, Apply(c, s, a), rest).ctl);
    } else {
      ApproachGoesOn(c, s, failure);
      rest := FailsAtFirstPush(c, Apply(c, s, a), failure);
    }
    acts := [a] + rest;
    assert acts[1..] == rest;
  }

  lemma FailureLeaves(c: Config, s: State, a: Act)
    requires Enabled(c, s, a) && (FailedPush(a) || a.GiveUp? || a.CreateFails?)
    ensures Leaving(Apply(c, s, a).ctl)
  {
    hide M.Store, Head, ChainAt, Retreat;
  }

  lemma LeavingExit(ctl: Ctl)
    requires Leaving(ctl) && ctl.Exit?
    ensures ctl == Exit(false)
  {
  }

  lemma LeavingStep(c: Config, s: State, a: Act)
    requires Enabled(c, s, a) && Leaving(s.ctl)
    ensures Leaving(Apply(c, s, a).ctl)
  {
    hide M.Apply, M.Store, Mine, Head, ChainAt, Next, Tail, AllDone;
  }

  lemma {:induction false} LeavingKept(c: Config, s: State, acts: seq<Act>)
    requires Schedule(c, s, acts) && Leaving(s.ctl)
    ensures Leaving(After(c, s, acts).ctl)
    decreases |acts|
  {
    hide Enabled, Apply, Leaving;
    if acts != [] {
      LeavingStep(c, s, acts[0]);
      LeavingKept(c, Apply(c, s, acts[0]), acts[1..]);
    }
  }

  /** Any table, thread count and capacity has a state to start from. */
  lemma Start(c: Config) returns (s0: State)
    requires ValidConfig(c)
    ensures Initial(c, s0)
  {
    var q := M.Queue(c.capacity, [], false, [M.Ready], map[], seq(c.workers, i => M.Ready), [], []);
    s0 := State(Starting(0), [], q, seq(c.workers, i => Unborn), set n | n in All(c), [], [], [], false, false);
  }

  /** The faulty runs exist: for every table that holds a node, some run has a push that stores and fails, reaches the
      failing exit, and has by then touched a freed or pushed node. */
  lemma FaultyRunExists(c: Config) returns (s0: State, acts: seq<Act>)
    requires ValidConfig(c) && All(c) != []
    ensures Initial(c, s0) && Schedule(c, s0, acts) && StoresAndFails(acts)
    ensures After(c, s0, acts).ctl == Exit(false) && After(c, s0, acts).fault
  {
    hide ValidConfig, Initial, All, FlatFrom, Schedule, After;
    s0 := Start(c);
    InitialOrderly(c, s0);
    StartsBeforeFirstPush(c, s0);
    acts := FailsAtFirstPush(c, s0, PushFailsStored(0));
    FaultyIffPushStoredAndFailed(c, s0, acts);
  }

  /** So do runs through each of the other failing exits, which free every node once: a broken collection or set-up, a
      thread that cannot be created, and, if there is a node to push, a push that fails without storing. */
  lemma FailingRunExists(c: Config, failure: Act) returns (s0: State, acts: seq<Act>)
    requires ValidConfig(c) && (failure.GiveUp? || failure.CreateFails? || (failure.PushFails? && All(c) != []))
    ensures Initial(c, s0) && Schedule(c, s0, acts) && failure in acts && After(c, s0, acts).ctl == Exit(false)
    ensures !After(c, s0, acts).fault && After(c, s0, acts).live == {}
    ensures multiset(After(c, s0, acts).released) + multiset(After(c, s0, acts).swept) == multiset(All(c))
  {
    hide ValidConfig, Initial, All, FlatFrom, Schedule, After;
    s0 := Start(c);
    InitialOrderly(c, s0);
    if failure.PushFails? {
      StartsBeforeFirstPush(c, s0);
      acts := FailsAtFirstPush(c, s0, failure);
    } else {
      acts := FailsAtOnce(c, s0, failure);
    }
    assert !StoresAndFails(acts) by {
      assert forall i :: 0 <= i < |acts| ==> acts[i] in acts;
    }
    EachNodeFreedOnce(c, s0, acts);
    NobodyTouchesFreedNodes(c, s0, acts);
  }

  lemma StartIs(c: Config, s0: State)
    requires Initial(c, s0)
    ensures s0.ctl == Starting(0) && |s0.hands| > 0
  {
    WorkersExist(c);
  }

  lemma FailsAtOnce(c: Config, s0: State, failure: Act) returns (acts: seq<Act>)
    requires Initial(c, s0) && Orderly(c, s0) && (failure.GiveUp? || failure.CreateFails?)
    ensures Schedule(c, s0, acts) && After(c, s0, acts).ctl == Exit(false)
    ensures failure in acts && forall a :: a in acts && Failing(a) ==> a == failure
  {
    StartIs(c, s0);
    hide Initial, Orderly, Head, ChainAt, Failing;
    StepOrderly(c, s0, failure);
    var s1 := Apply(c, s0, failure);
    FailureLeaves(c, s0, failure);
    hide Apply, Enabled;
    var rest := ReachesExit(c, s1);
    LeavingKept(c, s1, rest);
    LeavingExit(After(c, s1, rest).ctl);
    acts := [failure] + rest;
    assert acts[1..] == rest;
  }

  lemma StartsBeforeFirstPush(c: Config, s0: State)
    requires Initial(c, s0) && Orderly(c, s0) && All(c) != []
    ensures BeforeFirstPush(c, s0)
  {
    hide All, FlatFrom, Orderly;
    assert Owned(c, s0.ctl, s0.ahead) == All(c);
  }

  lemma StaysOnCourse(c: Config, s: State, a: Act)
    requires Enabled(c, s, a) && !Failing(a) && !Leaving(s.ctl)
    ensures !Leaving(Apply(c, s, a).ctl)
  {
    hide M.Apply, M.Store, Mine, Head, ChainAt, Next, Tail, AllDone;
  }

  lemma {:induction false} CourseKept(c: Config, s: State, acts: seq<Act>)
    requires Schedule(c, s, acts) && !Leaving(s.ctl) && forall a :: a in acts ==> !Failing(a)
    ensures !Leaving(After(c, s, acts).ctl)
    decreases |acts|
  {
    hide Enabled, Apply, Failing, Leaving;
    if acts != [] {
      assert acts[0] in acts;
      StaysOnCourse(c, s, acts[0]);
      CourseKept(c, Apply(c, s, acts[0]), acts[1..]);
    }
  }

  /** And so do the successful ones: some run pushes every node in the order of the walk, and the workers reduce and
      free each of them once. */
  lemma SuccessfulRunExists(c: Config) returns (s0: State, acts: seq<Act>)
    requires ValidConfig(c)
    ensures Initial(c, s0) && Schedule(c, s0, acts) && After(c, s0, acts).ctl == Exit(true)
    ensures After(c, s0, acts).q.pushed == All(c) && multiset(After(c, s0, acts).reduced) == multiset(All(c))
    ensures multiset(After(c, s0, acts).released) == multiset(All(c)) && !After(c, s0, acts).fault
  {
    s0 := Start(c);
    InitialOrderly(c, s0);
    assert !Leaving(s0.ctl);
    hide Initial, ValidConfig, All, Schedule, After, Orderly;
    acts := ReachesExit(c, s0);
    CourseKept(c, s0, acts);
    assert !StoresAndFails(acts) by {
      assert forall i :: 0 <= i < |acts| ==> acts[i] in acts;
    }
    EachNodeFreedOnce(c, s0, acts);
    NobodyTouchesFreedNodes(c, s0, acts);
  }
}
