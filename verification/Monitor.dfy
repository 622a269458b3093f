/** The bounded closable buffer of src/queue.c as a monitor: any number of producers and consumers, one
    critical section per step, cnd_signal waking one chosen sleeper, spurious wakeups at any time. */
module Monitor {

  /** Where a thread stands with respect to the queue: outside any call, past push's assertion that the queue is open
      but not yet in its critical section, blocked in cnd_wait, returned from cnd_wait but not yet past the re-check
      of its loop condition, or finished because a pop returned 1. */
  datatype Thread = Ready | Entering | Asleep | Awake | Gone

  /** `items` is buffer[0..count) as a stack; `hand` holds the element of each producer that is inside a push;
      `pushed` and `popped` record the whole history. */
  datatype Queue<J> = Queue(
    cap: nat, items: seq<J>, closed: bool,
    prods: seq<Thread>, hand: map<nat, J>, cons: seq<Thread>,
    pushed: seq<J>, popped: seq<J>)

  datatype Act<J> =
    | Enter(p: nat, x: J)
    | Push(p: nat, sig: nat)
    | Pop(c: nat, sig: nat)
    | Close
    | WakeProducer(p: nat)
    | WakeConsumer(c: nat)

  /** cnd_signal: if anybody sleeps, the chosen one wakes. */
  predicate CanSignal(ts: seq<Thread>, sig: nat)
  {
    Asleep in ts ==> sig < |ts| && ts[sig] == Asleep
  }

  /** Some thread that a signal can be delivered to. */
  ghost function Sleeper(ts: seq<Thread>): (sig: nat)
    ensures CanSignal(ts, sig)
  {
    if Asleep in ts then var i :| 0 <= i < |ts| && ts[i] == Asleep; i else 0
  }

  function Signal(ts: seq<Thread>, sig: nat): (r: seq<Thread>)
    ensures |r| == |ts|
  {
    if sig < |ts| && ts[sig] == Asleep then ts[sig := Awake] else ts
  }

  /** cnd_broadcast. */
  function Broadcast(ts: seq<Thread>): (r: seq<Thread>)
    ensures |r| == |ts|
    ensures forall i :: 0 <= i < |ts| ==> r[i] == if ts[i] == Asleep then Awake else ts[i]
  {
    seq(|ts|, i requires 0 <= i < |ts| => if ts[i] == Asleep then Awake else ts[i])
  }

  /** Enter is the assertion at the head of push, outside the mutex; Push is a critical section of push, the first or
      one after a wait, and does not look at `closed`. */
  predicate Enabled<J>(q: Queue<J>, a: Act<J>)
  {
    match a
    case Enter(p, x) => p < |q.prods| && q.prods[p] == Ready && !q.closed
    case Push(p, sig) =>
      p < |q.prods| && (q.prods[p] == Entering || q.prods[p] == Awake) && p in q.hand && CanSignal(q.cons, sig)
    case Pop(c, sig) => c < |q.cons| && (q.cons[c] == Ready || q.cons[c] == Awake) && CanSignal(q.prods, sig)
    case Close => true
    case WakeProducer(p) => p < |q.prods| && q.prods[p] == Asleep
    case WakeConsumer(c) => c < |q.cons| && q.cons[c] == Asleep
  }

  function Store<J>(q: Queue<J>, p: nat, x: J, sig: nat): Queue<J>
    requires p < |q.prods|
  {
    q.(items := q.items + [x], pushed := q.pushed + [x],
       prods := q.prods[p := Ready], hand := q.hand - {p}, cons := Signal(q.cons, sig))
  }

  function Take<J>(q: Queue<J>, c: nat, sig: nat): Queue<J>
    requires c < |q.cons| && |q.items| > 0
  {
    var n := |q.items| - 1;
    q.(items := q.items[..n], popped := q.popped + [q.items[n]],
       cons := q.cons[c := Ready], prods := Signal(q.prods, sig))
  }

  function Apply<J>(q: Queue<J>, a: Act<J>): Queue<J>
    requires Enabled(q, a)
  {
    match a
    case Enter(p, x) => q.(prods := q.prods[p := Entering], hand := q.hand[p := x])
    case Push(p, sig) =>
      if |q.items| == q.cap then q.(prods := q.prods[p := Asleep])
      else Store(q, p, q.hand[p], sig)
    case Pop(c, sig) =>
      if |q.items| == 0 then q.(cons := q.cons[c := if q.closed then Gone else Asleep])
      else Take(q, c, sig)
    case Close => q.(closed := true, cons := Broadcast(q.cons))
    case WakeProducer(p) => q.(prods := q.prods[p := Awake])
    case WakeConsumer(c) => q.(cons := q.cons[c := Awake])
  }

  // ---------------------------------------------------------------- the invariant

  /** How many threads are in a given state. */
  ghost function Count(ts: seq<Thread>, t: Thread): nat { multiset(ts)[t] }

  /** The producer is past the assertion and has not stored its element yet. */
  ghost predicate Inside(ts: seq<Thread>, p: nat)
  {
    p < |ts| && (ts[p] == Entering || ts[p] == Asleep || ts[p] == Awake)
  }

  /** Nothing is lost or duplicated, the buffer stays within its capacity, and no wakeup is lost: the elements
      (free slots) that sleepers could use are covered by threads already woken. */
  ghost predicate Inv<J>(q: Queue<J>)
  {
    && 0 < q.cap && |q.items| <= q.cap
    && multiset(q.pushed) == multiset(q.popped) + multiset(q.items)
    && (Count(q.cons, Asleep) > 0 ==> !q.closed && |q.items| <= Count(q.cons, Awake))
    && (Count(q.prods, Asleep) > 0 ==> q.cap - |q.items| <= Count(q.prods, Awake))
    && (forall p :: p in q.hand <==> Inside(q.prods, p))
    && Count(q.prods, Gone) == 0 && Count(q.cons, Entering) == 0
    && (Count(q.cons, Gone) > 0 ==> q.closed)
  }

  ghost predicate Initial<J>(q: Queue<J>)
  {
    && 0 < q.cap && q.items == [] && !q.closed && q.hand == map[] && q.pushed == [] && q.popped == []
    && (forall i :: 0 <= i < |q.prods| ==> q.prods[i] == Ready)
    && (forall i :: 0 <= i < |q.cons| ==> q.cons[i] == Ready)
  }

  lemma InitialInv<J>(q: Queue<J>)
    requires Initial(q)
    ensures Inv(q)
  {
  }

  lemma CountUpdate(ts: seq<Thread>, i: nat, v: Thread)
    requires i < |ts|
    ensures forall t :: Count(ts[i := v], t) == Count(ts, t) - (if t == ts[i] then 1 else 0) + (if t == v then 1 else 0)
    ensures Count(ts, ts[i]) > 0
  {
    assert multiset(ts[i := v]) == multiset(ts) - multiset{ts[i]} + multiset{v};
  }

  lemma CountSomebody(ts: seq<Thread>, t: Thread)
    ensures Count(ts, t) > 0 <==> t in ts
  {
    assert t in multiset(ts) <==> t in ts;
  }

  lemma CountAtMostAll(ts: seq<Thread>, t: Thread)
    ensures Count(ts, t) <= |ts|
  {
    if ts != [] {
      CountAtMostAll(ts[..|ts| - 1], t);
      assert ts == ts[..|ts| - 1] + [ts[|ts| - 1]];
    }
  }

  /** A signal moves one sleeper, if there is one, and nobody else. */
  lemma SignalCounts(ts: seq<Thread>, sig: nat)
    requires CanSignal(ts, sig)
    ensures Count(Signal(ts, sig), Asleep) == if Count(ts, Asleep) > 0 then Count(ts, Asleep) - 1 else 0
    ensures Count(Signal(ts, sig), Awake) == Count(ts, Awake) + if Count(ts, Asleep) > 0 then 1 else 0
    ensures Count(Signal(ts, sig), Ready) == Count(ts, Ready) && Count(Signal(ts, sig), Gone) == Count(ts, Gone)
    ensures Count(Signal(ts, sig), Entering) == Count(ts, Entering)
    ensures forall p :: Inside(Signal(ts, sig), p) <==> Inside(ts, p)
  {
    CountSomebody(ts, Asleep);
    if Asleep in ts {
      CountUpdate(ts, sig, Awake);
    }
  }

  lemma BroadcastCounts(ts: seq<Thread>)
    ensures Count(Broadcast(ts), Asleep) == 0
    ensures Count(Broadcast(ts), Gone) > 0 ==> Count(ts, Gone) > 0
    ensures Count(Broadcast(ts), Entering) > 0 ==> Count(ts, Entering) > 0
    ensures Count(Broadcast(ts), Awake) <= |ts|
  {
    CountSomebody(Broadcast(ts), Asleep);
    CountSomebody(Broadcast(ts), Gone);
    CountSomebody(ts, Gone);
    CountSomebody(Broadcast(ts), Entering);
    CountSomebody(ts, Entering);
    CountAtMostAll(Broadcast(ts), Awake);
  }

  lemma StoreInv<J>(q: Queue<J>, p: nat, x: J, sig: nat)
    requires Inv(q) && p < |q.prods| && |q.items| < q.cap && CanSignal(q.cons, sig)
    requires q.prods[p] == Entering || q.prods[p] == Awake
    ensures Inv(Store(q, p, x, sig))
  {
    hide Count, Signal;
    CountUpdate(q.prods, p, Ready);
    SignalCounts(q.cons, sig);
  }

  lemma TakeInv<J>(q: Queue<J>, c: nat, sig: nat)
    requires Inv(q) && c < |q.cons| && |q.items| > 0 && CanSignal(q.prods, sig)
    requires q.cons[c] == Ready || q.cons[c] == Awake
    ensures Inv(Take(q, c, sig))
  {
    hide Count, Signal;
    var n := |q.items| - 1;
    CountUpdate(q.cons, c, Ready);
    SignalCounts(q.prods, sig);
    assert q.items == q.items[..n] + [q.items[n]];
  }

  /** Every step of every thread keeps the invariant. */
  lemma StepInv<J>(q: Queue<J>, a: Act<J>)
    requires Inv(q) && Enabled(q, a)
    ensures Inv(Apply(q, a))
  {
    hide Count, Signal;
    match a
    case Enter(p, x) => CountUpdate(q.prods, p, Entering);
    case Push(p, sig) =>
      if |q.items| == q.cap { CountUpdate(q.prods, p, Asleep); } else { StoreInv(q, p, q.hand[p], sig); }
    case Pop(c, sig) =>
      if |q.items| > 0 { TakeInv(q, c, sig); } else { CountUpdate(q.cons, c, if q.closed then Gone else Asleep); }
    case Close => BroadcastCounts(q.cons);
    case WakeProducer(p) => CountUpdate(q.prods, p, Awake);
    case WakeConsumer(c) => CountUpdate(q.cons, c, Awake);
  }

  // ---------------------------------------------------------------- every schedule

  /** A schedule is the list of steps the threads happen to take. */
  ghost predicate Schedule<J>(q: Queue<J>, acts: seq<Act<J>>)
    decreases |acts|
  {
    acts == [] || (Enabled(q, acts[0]) && Schedule(Apply(q, acts[0]), acts[1..]))
  }

  ghost function After<J>(q: Queue<J>, acts: seq<Act<J>>): Queue<J>
    requires Schedule(q, acts)
    decreases |acts|
  {
    if acts == [] then q else After(Apply(q, acts[0]), acts[1..])
  }

  lemma {:induction false} ScheduleInv<J>(q: Queue<J>, acts: seq<Act<J>>)
    requires Inv(q) && Schedule(q, acts)
    ensures Inv(After(q, acts))
    decreases |acts|
  {
    if acts != [] {
      StepInv(q, acts[0]);
      ScheduleInv(Apply(q, acts[0]), acts[1..]);
    }
  }

  /** No lost wakeup, conservation and capacity, after any schedule from the initial queue. */
  lemma NoLostWakeup<J>(q0: Queue<J>, acts: seq<Act<J>>)
    requires Initial(q0) && Schedule(q0, acts)
    ensures var q := After(q0, acts);
            && |q.items| <= q.cap
            && multiset(q.pushed) == multiset(q.popped) + multiset(q.items)
            && (Asleep in q.cons ==> !q.closed && |q.items| <= Count(q.cons, Awake))
            && (Asleep in q.prods ==> q.cap - |q.items| <= Count(q.prods, Awake))
  {
    InitialInv(q0);
    ScheduleInv(q0, acts);
    var q := After(q0, acts);
    CountSomebody(q.cons, Asleep);
    CountSomebody(q.prods, Asleep);
  }

  /** A sleeping producer with nobody woken means a full buffer, a sleeping consumer with nobody woken an empty
      open one; so the two sides are never blocked at the same time. */
  lemma NeverBothBlocked<J>(q: Queue<J>)
    requires Inv(q)
    ensures Asleep in q.prods && Awake !in q.prods ==> |q.items| == q.cap && (Asleep in q.cons ==> Awake in q.cons)
    ensures Asleep in q.cons && Awake !in q.cons ==> q.items == [] && !q.closed
    ensures Asleep in q.cons && Awake !in q.cons && Asleep in q.prods ==> Awake in q.prods
  {
    CountSomebody(q.prods, Asleep);
    CountSomebody(q.prods, Awake);
    CountSomebody(q.cons, Asleep);
    CountSomebody(q.cons, Awake);
  }

  /** A pop returns 1 only on a closed queue from which every stored element has been taken. */
  lemma PopReturnsOneOnlyWhenDrained<J>(q: Queue<J>, c: nat, sig: nat)
    requires Inv(q) && Enabled(q, Pop(c, sig))
    ensures Apply(q, Pop(c, sig)).cons[c] == Gone <==> q.closed && multiset(q.pushed) == multiset(q.popped)
  {
    assert |multiset(q.items)| == |q.items|;
  }

  // ---------------------------------------------------------------- closing

  ghost predicate AllGone<J>(q: Queue<J>)
  {
    forall c :: 0 <= c < |q.cons| ==> q.cons[c] == Gone
  }

  /** Once the consumers have all gone, nothing is left behind, however the threads ran after the close. */
  ghost predicate Drains<J(!new)>(q: Queue<J>)
  {
    forall acts :: Schedule(q, acts) && AllGone(After(q, acts)) ==> After(q, acts).items == []
  }

  ghost predicate Settled<J>(q: Queue<J>)
  {
    Inv(q) && q.closed && q.hand == map[] && (Count(q.cons, Gone) > 0 ==> q.items == [])
  }

  lemma SettledStep<J>(q: Queue<J>, a: Act<J>)
    requires Settled(q) && Enabled(q, a)
    ensures Settled(Apply(q, a))
  {
    StepInv(q, a);
    hide Count, Signal;
    match a
    case Enter(p, x) =>
    case Push(p, sig) =>
    case Pop(c, sig) => CountUpdate(q.cons, c, if |q.items| == 0 then Gone else Ready);
    case Close => BroadcastCounts(q.cons);
    case WakeProducer(p) =>
    case WakeConsumer(c) => CountUpdate(q.cons, c, Awake);
  }

  lemma NobodyInside<J>(q: Queue<J>)
    requires Inv(q) && forall p :: 0 <= p < |q.prods| ==> q.prods[p] == Ready
    ensures q.hand == map[]
  {
    hide Count;
    assert forall p :: p in q.hand <==> Inside(q.prods, p);
  }

  /** A queue whose only producer is the one that closes it stays settled from the close on. */
  lemma SettlesOnClose<J>(q: Queue<J>, a: Act<J>)
    requires Inv(q) && Enabled(q, a) && (q.closed ==> Settled(q))
    requires a == Close && !q.closed ==> q.hand == map[]
    ensures Apply(q, a).closed ==> Settled(Apply(q, a))
  {
    if q.closed {
      SettledStep(q, a);
    } else if a == Close {
      StepInv(q, a);
      BroadcastCounts(q.cons);
    }
  }

  lemma {:induction false} SettledDrains<J>(q: Queue<J>, acts: seq<Act<J>>)
    requires Settled(q) && Schedule(q, acts) && |q.cons| > 0 && AllGone(After(q, acts))
    ensures After(q, acts).items == []
    decreases |acts|
  {
    if acts == [] {
      CountSomebody(q.cons, Gone);
      assert q.cons[0] == Gone;
    } else {
      SettledStep(q, acts[0]);
      SettledDrains(Apply(q, acts[0]), acts[1..]);
    }
  }

  /** With a producer still inside a push, the consumers can all leave before it stores its element. */
  lemma {:induction false} Retire<J>(q: Queue<J>, p: nat) returns (acts: seq<Act<J>>)
    requires Inv(q) && q.closed && p in q.hand
    ensures Schedule(q, acts) && Inv(After(q, acts)) && AllGone(After(q, acts))
    ensures After(q, acts).closed && p in After(q, acts).hand
    decreases |q.items| + |q.cons| - Count(q.cons, Gone)
  {
    hide Count;
    if AllGone(q) {
      acts := [];
    } else {
      var c :| 0 <= c < |q.cons| && q.cons[c] != Gone;
      CountSomebody(q.cons, Asleep);
      CountSomebody(q.cons, Entering);
      CountSomebody(q.prods, Asleep);
      var sig := Sleeper(q.prods);
      var a := Pop(c, sig);
      StepInv(q, a);
      CountUpdate(q.cons, c, Apply(q, a).cons[c]);
      CountAtMostAll(q.cons, Gone);
      CountAtMostAll(Apply(q, a).cons, Gone);
      var rest := Retire(Apply(q, a), p);
      acts := [a] + rest;
      assert acts[1..] == rest;
    }
  }

  lemma OneStep<J>(q: Queue<J>, a: Act<J>)
    requires Enabled(q, a)
    ensures Schedule(q, [a]) && After(q, [a]) == Apply(q, a)
  {
    assert [a][1..] == [];
  }

  lemma Strand<J>(q: Queue<J>, p: nat) returns (acts: seq<Act<J>>)
    requires Inv(q) && q.closed && p in q.hand
    ensures Schedule(q, acts) && AllGone(After(q, acts)) && After(q, acts).items != []
  {
    hide Schedule, After, Count;
    acts := Retire(q, p);
    var r := After(q, acts);
    if r.items == [] {
      CountSomebody(r.cons, Asleep);
      if r.prods[p] == Asleep {
        OneStep(r, WakeProducer(p));
        ScheduleJoin(q, acts, [WakeProducer(p)]);
        acts := acts + [WakeProducer(p)];
        r := Apply(r, WakeProducer(p));
      }
      OneStep(r, Push(p, 0));
      ScheduleJoin(q, acts, [Push(p, 0)]);
      acts := acts + [Push(p, 0)];
    }
  }

  lemma {:induction false} ScheduleJoin<J>(q: Queue<J>, a: seq<Act<J>>, b: seq<Act<J>>)
    requires Schedule(q, a) && Schedule(After(q, a), b)
    ensures Schedule(q, a + b) && After(q, a + b) == After(After(q, a), b)
    decreases |a|
  {
    if a == [] {
      assert a + b == b;
    } else {
      assert (a + b)[1..] == a[1..] + b;
      ScheduleJoin(Apply(q, a[0]), a[1..], b);
    }
  }

  /** Closing drains the queue exactly when no producer is past the assertion of a push at that moment: whether it
      still has to lock the mutex or waits for room, it does not look at `closed` again and may store its element
      after the last pop. */
  lemma CloseDrainsIffNoPushInProgress<J(!new)>(q: Queue<J>)
    requires Inv(q) && !q.closed && |q.cons| > 0
    ensures Drains(Apply(q, Close)) <==> q.hand == map[]
  {
    var r := Apply(q, Close);
    StepInv(q, Close);
    if q.hand == map[] {
      BroadcastCounts(q.cons);
      forall acts | Schedule(r, acts) && AllGone(After(r, acts)) ensures After(r, acts).items == [] {
        SettledDrains(r, acts);
      }
    } else {
      var p :| p in q.hand;
      var acts := Strand(r, p);
    }
  }

  /** A producer that is preempted between the assertion and the lock is enough: from every initial queue, some run
      strands its element although nobody ever waited for room. */
  lemma PreemptedPushIsStranded<J>(q0: Queue<J>, x: J) returns (acts: seq<Act<J>>)
    requires Initial(q0) && |q0.prods| > 0 && |q0.cons| > 0
    ensures Schedule(q0, acts) && [Enter(0, x), Close] <= acts
    ensures AllGone(After(q0, acts)) && After(q0, acts).items != []
  {
    var q1 := Apply(q0, Enter(0, x));
    var q2 := Apply(q1, Close);
    InitialInv(q0);
    StepInv(q0, Enter(0, x));
    StepInv(q1, Close);
    var rest := Strand(q2, 0);
    hide Inv, Apply, Enabled;
    acts := [Enter(0, x), Close] + rest;
    assert acts[1..] == [Close] + rest && acts[1..][1..] == rest;
  }

  // ---------------------------------------------------------------- what is left open

  /** Nobody is held up but by what the code waits for, and every choice is open: a producer outside may enter an open
      queue with any element, anybody who holds no wait may lock the mutex, a signal may wake whichever sleeper, any
      sleeper may wake without one, and the queue may be closed at any time. */
  lemma AnythingMayHappen<J>(q: Queue<J>, i: nat, x: J, sig: nat)
    requires Inv(q)
    ensures i < |q.prods| && q.prods[i] == Ready && !q.closed ==> Enabled(q, Enter(i, x))
    ensures i < |q.prods| && (q.prods[i] == Entering || q.prods[i] == Awake) ==>
              (Asleep !in q.cons || (sig < |q.cons| && q.cons[sig] == Asleep) ==> Enabled(q, Push(i, sig)))
    ensures i < |q.cons| && (q.cons[i] == Ready || q.cons[i] == Awake) ==>
              (Asleep !in q.prods || (sig < |q.prods| && q.prods[sig] == Asleep) ==> Enabled(q, Pop(i, sig)))
    ensures i < |q.prods| && q.prods[i] == Asleep ==> Enabled(q, WakeProducer(i))
    ensures i < |q.cons| && q.cons[i] == Asleep ==> Enabled(q, WakeConsumer(i))
    ensures Enabled(q, Close)
  {
    hide Count;
    assert i < |q.prods| ==> (i in q.hand <==> Inside(q.prods, i));
  }
}
