/** A worker pool as in src/mapper.c and src/reducer.c: one controller feeds a bounded queue, N workers pop jobs,
    call the user function and write each record it emits as one frame under the stdout mutex. The mapper and the
    reducer are two instances of it, with lines and token groups as jobs. */
module Pool {
  import opened Collections
  import opened Wire
  import opened Pipes
  import M = Monitor

  /** What a worker is doing: popping, inside the user function before its `next`-th emit, or inside that emit with
      the mutex held and `sent` bytes of the frame written. */
  datatype Hand<J> = Free | Busy(job: J, next: nat) | Holding(job: J, next: nat, sent: nat)

  datatype Emitted = Emitted(worker: nat, rec: Record)

  /** `log` lists the whole frames in stream order, `done` the jobs each worker has finished; `count` is the shared
      counter of emitted records. */
  datatype Pool<J> = Pool(
    q: M.Queue<J>, hands: seq<Hand<J>>, lock: Option<nat>, out: Pipe,
    log: seq<Emitted>, done: seq<seq<J>>, count: nat)

  /** Feed, Insert and Shut are the controller's; Drain is the process at the other end of the pipe; the two
      Rouse steps are spurious wakeups; the rest belongs to worker `w`. */
  datatype Act<J> =
    | Feed(x: J)
    | Insert(sig: nat)
    | Shut
    | Take(w: nat, sig: nat)
    | Lock(w: nat)
    | Send(w: nat, k: nat)
    | Unlock(w: nat)
    | Finish(w: nat)
    | Drain(k: nat)
    | RouseFeeder
    | RouseWorker(w: nat)

  function Frame(r: Record): seq<Byte> { Encode(Rec(r)) }

  function Queued<J>(a: Act<J>): M.Act<J>
    requires a.Feed? || a.Insert? || a.Shut? || a.Take? || a.RouseFeeder? || a.RouseWorker?
  {
    match a
    case Feed(x) => M.Enter(0, x)
    case Insert(sig) => M.Push(0, sig)
    case Shut => M.Close
    case Take(w, sig) => M.Pop(w, sig)
    case RouseFeeder => M.WakeProducer(0)
    case RouseWorker(w) => M.WakeConsumer(w)
  }

  ghost predicate Enabled<J>(work: J -> seq<Record>, p: Pool<J>, a: Act<J>)
  {
    match a
    case Take(w, sig) => w < |p.hands| && p.hands[w].Free? && M.Enabled(p.q, Queued(a))
    case Lock(w) =>
      w < |p.hands| && p.hands[w].Busy? && p.hands[w].next < |work(p.hands[w].job)| && p.lock.None?
    case Send(w, k) =>
      && w < |p.hands| && p.hands[w].Holding? && p.hands[w].next < |work(p.hands[w].job)|
      && p.hands[w].sent + k <= |Frame(work(p.hands[w].job)[p.hands[w].next])| && CanWrite(p.out, k)
    case Unlock(w) =>
      && w < |p.hands| && p.hands[w].Holding? && p.hands[w].next < |work(p.hands[w].job)|
      && p.hands[w].sent == |Frame(work(p.hands[w].job)[p.hands[w].next])|
    case Finish(w) =>
      w < |p.hands| && w < |p.done| && p.hands[w].Busy? && p.hands[w].next >= |work(p.hands[w].job)|
    case Drain(k) => CanRead(p.out, k)
    case _ => M.Enabled(p.q, Queued(a))
  }

  ghost function Apply<J>(work: J -> seq<Record>, p: Pool<J>, a: Act<J>): Pool<J>
    requires Enabled(work, p, a)
  {
    match a
    case Take(w, sig) =>
      var q := M.Apply(p.q, Queued(a));
      if |p.q.items| == 0 then p.(q := q)
      else p.(q := q, hands := p.hands[w := Busy(p.q.items[|p.q.items| - 1], 0)])
    case Lock(w) =>
      p.(hands := p.hands[w := Holding(p.hands[w].job, p.hands[w].next, 0)], lock := Some(w))
    case Send(w, k) =>
      var h := p.hands[w];
      var f := Frame(work(h.job)[h.next]);
      p.(hands := p.hands[w := Holding(h.job, h.next, h.sent + k)],
         out := Write(p.out, f[h.sent..h.sent + k]))
    case Unlock(w) =>
      var h := p.hands[w];
      p.(hands := p.hands[w := Busy(h.job, h.next + 1)], lock := None,
         log := p.log + [Emitted(w, work(h.job)[h.next])], count := p.count + 1)
    case Finish(w) =>
      p.(hands := p.hands[w := Free], done := p.done[w := p.done[w] + [p.hands[w].job]])
    case Drain(k) => p.(out := Read(p.out, k))
    case _ => p.(q := M.Apply(p.q, Queued(a)))
  }

  predicate Spurious<J>(a: Act<J>) { a.RouseFeeder? || a.RouseWorker? }

  predicate ByWorkers<J>(a: Act<J>) { a.Take? || a.Lock? || a.Send? || a.Unlock? || a.Finish? }

  // ---------------------------------------------------------------- invariant

  ghost predicate HandOk<J>(work: J -> seq<Record>, h: Hand<J>)
  {
    match h
    case Free => true
    case Busy(j, i) => i <= |work(j)|
    case Holding(j, i, s) => i < |work(j)| && s <= |Frame(work(j)[i])|
  }

  /** The queue is sound, and a worker is inside an emit exactly when it owns the mutex. */
  ghost predicate Shaped<J>(work: J -> seq<Record>, p: Pool<J>)
  {
    && M.Inv(p.q) && Valid(p.out)
    && |p.q.prods| == 1 && |p.hands| == |p.q.cons| == |p.done|
    && (forall w :: 0 <= w < |p.hands| ==> HandOk(work, p.hands[w]))
    && (forall w :: 0 <= w < |p.hands| && !p.hands[w].Free? ==> p.q.cons[w] == M.Ready)
    && (forall w :: 0 <= w < |p.hands| ==> (p.hands[w].Holding? <==> p.lock == Some(w)))
    && (p.lock.Some? ==> p.lock.value < |p.hands|)
  }

  ghost function Sent(log: seq<Emitted>): seq<Unit>
  {
    seq(|log|, i requires 0 <= i < |log| => Rec(log[i].rec))
  }

  /** The torn frame at the end of the stream. */
  ghost function Torn<J>(work: J -> seq<Record>, p: Pool<J>): seq<Byte>
  {
    if p.lock.None? || p.lock.value >= |p.hands| then []
    else match p.hands[p.lock.value]
         case Holding(j, i, s) => if i < |work(j)| && s <= |Frame(work(j)[i])| then Frame(work(j)[i])[..s] else []
         case _ => []
  }

  /** The stream is whole frames followed by a prefix of the mutex owner's frame. */
  ghost predicate Framed<J>(work: J -> seq<Record>, p: Pool<J>)
  {
    p.out.hist == Stream(Sent(p.log)) + Torn(work, p) && p.count == |p.log|
  }

  ghost function Records(log: seq<Emitted>): seq<Record>
  {
    seq(|log|, i requires 0 <= i < |log| => log[i].rec)
  }

  ghost function PendingBag<J>(work: J -> seq<Record>, h: Hand<J>): multiset<Record>
  {
    if h.Free? || h.next > |work(h.job)| then multiset{} else multiset(work(h.job)[h.next..])
  }

  ghost function Pending<J>(work: J -> seq<Record>): Hand<J> -> multiset<Record> { h => PendingBag(work, h) }

  ghost function WorkBag<J>(work: J -> seq<Record>): J -> multiset<Record> { j => multiset(work(j)) }

  ghost function InHand<J>(): Hand<J> -> multiset<J> { (h: Hand<J>) => if h.Free? then multiset{} else multiset{h.job} }

  ghost function BagOf<J>(): seq<J> -> multiset<J> { s => multiset(s) }

  /** Every record of every job taken is either in the log or still to come. */
  ghost predicate RecordsBalance<J>(work: J -> seq<Record>, p: Pool<J>)
  {
    multiset(Records(p.log)) + SumBag(Pending(work), p.hands) == SumBag(WorkBag(work), p.q.popped)
  }

  /** Every job taken is finished or in exactly one hand. */
  ghost predicate JobsBalance<J>(p: Pool<J>)
  {
    SumBag(BagOf(), p.done) + SumBag(InHand(), p.hands) == multiset(p.q.popped)
  }

  ghost function ByWorker(log: seq<Emitted>, w: nat): seq<Record>
  {
    if log == [] then []
    else
      var n := |log| - 1;
      ByWorker(log[..n], w) + if log[n].worker == w then [log[n].rec] else []
  }

  ghost function Started<J>(work: J -> seq<Record>, h: Hand<J>): seq<Record>
  {
    if h.Free? || h.next > |work(h.job)| then [] else work(h.job)[..h.next]
  }

  /** Each worker's frames appear in the order in which it emitted them. */
  ghost predicate Ordered<J>(work: J -> seq<Record>, p: Pool<J>)
  {
    && |p.done| == |p.hands|
    && forall w :: 0 <= w < |p.hands| ==>
      ByWorker(p.log, w) == FlatMap(work, p.done[w]) + Started(work, p.hands[w])
  }

  ghost predicate Inv<J>(work: J -> seq<Record>, p: Pool<J>)
  {
    Shaped(work, p) && Framed(work, p) && RecordsBalance(work, p) && JobsBalance(p) && Ordered(work, p)
  }

  ghost predicate Initial<J>(p: Pool<J>)
  {
    && M.Initial(p.q) && |p.q.prods| == 1 && |p.hands| == |p.q.cons| == |p.done|
    && (forall w :: 0 <= w < |p.hands| ==> p.hands[w] == Free && p.done[w] == [])
    && p.lock == None && Valid(p.out) && p.out.hist == [] && p.log == [] && p.count == 0
  }

  lemma InitialInv<J>(work: J -> seq<Record>, p: Pool<J>)
    requires Initial(p)
    ensures Inv(work, p)
  {
    M.InitialInv(p.q);
    SumBagAllEmpty(Pending(work), p.hands);
    SumBagAllEmpty(InHand(), p.hands);
    SumBagAllEmpty(BagOf(), p.done);
    assert Records(p.log) == [] && Sent(p.log) == [];
  }

  // ---------------------------------------------------------------- steps keep it

  lemma StepShaped<J>(work: J -> seq<Record>, p: Pool<J>, a: Act<J>)
    requires Shaped(work, p) && Enabled(work, p, a)
    ensures Shaped(work, Apply(work, p, a))
  {
    hide M.Inv, Frame;
    if a.Feed? || a.Insert? || a.Shut? || a.Take? || a.RouseFeeder? || a.RouseWorker? {
      M.StepInv(p.q, Queued(a));
    }
  }

  lemma TornElsewhere<J>(work: J -> seq<Record>, p: Pool<J>, a: Act<J>)
    requires Shaped(work, p) && Enabled(work, p, a) && !a.Send? && !a.Unlock?
    ensures Torn(work, Apply(work, p, a)) == Torn(work, p)
  {
    hide M.Inv, M.Apply, Frame, HandOk;
    var p' := Apply(work, p, a);
    if p.lock.Some? {
      assert p'.lock == p.lock && p'.hands[p.lock.value] == p.hands[p.lock.value];
    } else if a.Lock? {
      assert p'.hands[a.w].sent == 0;
    } else {
      assert p'.lock.None?;
    }
  }

  lemma SendFramed<J>(work: J -> seq<Record>, p: Pool<J>, w: nat, k: nat)
    requires Shaped(work, p) && Framed(work, p) && Enabled(work, p, Send(w, k))
    ensures Framed(work, Apply(work, p, Send(w, k)))
  {
    hide M.Inv, M.Apply, Stream, Frame, HandOk;
    var h := p.hands[w];
    var f := Frame(work(h.job)[h.next]);
    assert p.lock == Some(w);
    assert f[..h.sent] + f[h.sent..h.sent + k] == f[..h.sent + k];
    Assoc(Stream(Sent(p.log)), f[..h.sent], f[h.sent..h.sent + k]);
    assert Apply(work, p, Send(w, k)).out.hist == p.out.hist + f[h.sent..h.sent + k];
  }

  lemma UnlockFramed<J>(work: J -> seq<Record>, p: Pool<J>, w: nat)
    requires Shaped(work, p) && Framed(work, p) && Enabled(work, p, Unlock(w))
    ensures Framed(work, Apply(work, p, Unlock(w)))
  {
    hide M.Inv, M.Apply, Stream, Frame, HandOk;
    var h := p.hands[w];
    var r := work(h.job)[h.next];
    assert p.lock == Some(w);
    assert Frame(r)[..h.sent] == Frame(r);
    assert Sent(p.log + [Emitted(w, r)]) == Sent(p.log) + [Rec(r)];
    StreamSnoc(Sent(p.log), Rec(r));
    FrameIs(r);
  }

  lemma StepFramed<J>(work: J -> seq<Record>, p: Pool<J>, a: Act<J>)
    requires Shaped(work, p) && Framed(work, p) && Enabled(work, p, a)
    ensures Framed(work, Apply(work, p, a))
  {
    if a.Send? {
      SendFramed(work, p, a.w, a.k);
    } else if a.Unlock? {
      UnlockFramed(work, p, a.w);
    } else {
      TornElsewhere(work, p, a);
      hide Shaped, Torn, M.Apply, Stream, Frame;
    }
  }

  lemma FrameIs(r: Record)
    ensures Frame(r) == Encode(Rec(r))
  {
  }

  /** What a step takes from the queue and what it adds to the log. */
  ghost function Taken<J>(p: Pool<J>, a: Act<J>): seq<J>
  {
    if a.Take? && |p.q.items| > 0 then [p.q.items[|p.q.items| - 1]] else []
  }

  ghost function Logged<J>(work: J -> seq<Record>, p: Pool<J>, a: Act<J>): seq<Record>
    requires Enabled(work, p, a)
  {
    if a.Unlock? then [work(p.hands[a.w].job)[p.hands[a.w].next]] else []
  }

  ghost function Finished<J>(work: J -> seq<Record>, p: Pool<J>, a: Act<J>): seq<J>
    requires Enabled(work, p, a)
  {
    if a.Finish? then [p.hands[a.w].job] else []
  }

  lemma PendingOfRest<J>(work: J -> seq<Record>, j: J, i: nat)
    ensures i < |work(j)| ==> PendingBag(work, Busy(j, i)) == PendingBag(work, Busy(j, i + 1)) + multiset{work(j)[i]}
    ensures i == |work(j)| ==> PendingBag(work, Busy(j, i)) == multiset{}
    ensures PendingBag(work, Busy(j, 0)) == multiset(work(j))
    ensures forall s :: PendingBag(work, Holding(j, i, s)) == PendingBag(work, Busy(j, i))
  {
    assert work(j)[0..] == work(j);
    if i < |work(j)| {
      assert work(j)[i..] == [work(j)[i]] + work(j)[i + 1..];
    }
  }

  lemma SumBagOfOne<T, R>(f: T -> multiset<R>, x: T)
    ensures SumBag(f, [x]) == f(x) && SumBag(f, []) == multiset{}
  {
    SumBagSnoc(f, [], x);
    assert [] + [x] == [x];
  }

  /** The hand of the worker after its step. */
  ghost function NextHand<J>(work: J -> seq<Record>, p: Pool<J>, a: Act<J>): Hand<J>
    requires Enabled(work, p, a) && ByWorkers(a)
  {
    var h := p.hands[a.w];
    match a
    case Take(_, _) => if Taken(p, a) == [] then Free else Busy(Taken(p, a)[0], 0)
    case Lock(_) => Holding(h.job, h.next, 0)
    case Send(_, k) => Holding(h.job, h.next, h.sent + k)
    case Unlock(_) => Busy(h.job, h.next + 1)
    case Finish(_) => Free
  }

  lemma PendingWhenTaking<J>(work: J -> seq<Record>, p: Pool<J>, a: Act<J>)
    requires Enabled(work, p, a) && a.Take?
    ensures PendingBag(work, p.hands[a.w]) == multiset{} && multiset(Logged(work, p, a)) == multiset{}
    ensures PendingBag(work, NextHand(work, p, a)) == SumBag(WorkBag(work), Taken(p, a))
  {
    hide M.Enabled, SumBag;
    if Taken(p, a) != [] {
      SumBagOfOne(WorkBag(work), Taken(p, a)[0]);
      PendingOfRest(work, Taken(p, a)[0], 0);
    } else {
      SumBagAllEmpty(WorkBag(work), []);
    }
  }

  lemma PendingWhenWorking<J>(work: J -> seq<Record>, p: Pool<J>, a: Act<J>)
    requires Enabled(work, p, a) && ByWorkers(a) && !a.Take? && HandOk(work, p.hands[a.w])
    ensures PendingBag(work, p.hands[a.w]) == PendingBag(work, NextHand(work, p, a)) + multiset(Logged(work, p, a))
    ensures SumBag(WorkBag(work), Taken(p, a)) == multiset{}
  {
    SumBagAllEmpty(WorkBag(work), []);
    var h := p.hands[a.w];
    PendingOfRest(work, h.job, h.next);
    assert PendingBag(work, Free) == multiset{};
    hide PendingBag, SumBag, Frame;
  }

  lemma PendingDelta<J>(work: J -> seq<Record>, p: Pool<J>, a: Act<J>)
    requires Shaped(work, p) && Enabled(work, p, a) && ByWorkers(a)
    ensures PendingBag(work, p.hands[a.w]) + SumBag(WorkBag(work), Taken(p, a))
         == PendingBag(work, NextHand(work, p, a)) + multiset(Logged(work, p, a))
  {
    assert a.w < |p.hands| && HandOk(work, p.hands[a.w]);
    hide Shaped, SumBag, PendingBag, NextHand, Logged, Taken, HandOk;
    if a.Take? { PendingWhenTaking(work, p, a); } else { PendingWhenWorking(work, p, a); }
  }

  lemma InHandDelta<J>(work: J -> seq<Record>, p: Pool<J>, a: Act<J>)
    requires Shaped(work, p) && Enabled(work, p, a) && ByWorkers(a)
    ensures InHand()(p.hands[a.w]) + multiset(Taken(p, a))
         == InHand()(NextHand(work, p, a)) + multiset(Finished(work, p, a))
  {
    hide M.Inv, M.Apply, Frame, Shaped;
  }

  lemma HistoryDelta<J>(work: J -> seq<Record>, p: Pool<J>, a: Act<J>)
    requires Shaped(work, p) && Enabled(work, p, a)
    ensures var p' := Apply(work, p, a);
            && p'.q.popped == p.q.popped + Taken(p, a)
            && Records(p'.log) == Records(p.log) + Logged(work, p, a)
            && (ByWorkers(a) ==> a.w < |p.hands| == |p'.hands| && a.w < |p.done| == |p'.done|)
            && (ByWorkers(a) ==> p'.hands == p.hands[a.w := NextHand(work, p, a)])
            && (ByWorkers(a) ==> p'.done[a.w] == p.done[a.w] + Finished(work, p, a))
            && (ByWorkers(a) ==> p'.done == p.done[a.w := p'.done[a.w]])
            && (!ByWorkers(a) ==> p'.hands == p.hands && p'.done == p.done)
            && (!ByWorkers(a) ==> p'.q.popped == p.q.popped && p'.log == p.log)
  {
    hide M.Inv, Frame;
  }

  lemma Rebalance<R>(settled: multiset<R>, pending: multiset<R>, total: multiset<R>,
                     before: multiset<R>, after: multiset<R>, logged: multiset<R>, taken: multiset<R>)
    requires settled + pending == total && before <= pending && before + taken == after + logged
    ensures (settled + logged) + (pending - before + after) == total + taken
  {
    forall x ensures ((settled + logged) + (pending - before + after))[x] == (total + taken)[x] {
      assert (settled + pending)[x] == total[x] && (before + taken)[x] == (after + logged)[x];
    }
  }

  lemma DoneGrows<J>(done: seq<seq<J>>, w: nat, more: seq<J>)
    requires w < |done|
    ensures SumBag(BagOf(), done[w := done[w] + more]) == SumBag(BagOf(), done) + multiset(more)
  {
    SumBagUpdate(BagOf(), done, w, done[w] + more);
  }

  lemma StepRecordsBalance<J>(work: J -> seq<Record>, p: Pool<J>, a: Act<J>)
    requires Shaped(work, p) && RecordsBalance(work, p) && Enabled(work, p, a)
    ensures RecordsBalance(work, Apply(work, p, a))
  {
    hide Shaped, SumBag, PendingBag, Records, Taken, Logged, Apply, Enabled, NextHand;
    var p' := Apply(work, p, a);
    HistoryDelta(work, p, a);
    SumBagAppend(WorkBag(work), p.q.popped, Taken(p, a));
    if ByWorkers(a) {
      PendingDelta(work, p, a);
      SumBagUpdate(Pending(work), p.hands, a.w, NextHand(work, p, a));
      Rebalance(multiset(Records(p.log)), SumBag(Pending(work), p.hands), SumBag(WorkBag(work), p.q.popped),
                PendingBag(work, p.hands[a.w]), PendingBag(work, NextHand(work, p, a)),
                multiset(Logged(work, p, a)), SumBag(WorkBag(work), Taken(p, a)));
    }
  }

  lemma StepJobsBalance<J>(work: J -> seq<Record>, p: Pool<J>, a: Act<J>)
    requires Shaped(work, p) && JobsBalance(p) && Enabled(work, p, a)
    ensures JobsBalance(Apply(work, p, a))
  {
    hide Shaped, SumBag, Taken, Finished, InHand, BagOf, Apply, Enabled, NextHand;
    var p' := Apply(work, p, a);
    HistoryDelta(work, p, a);
    if ByWorkers(a) {
      InHandDelta(work, p, a);
      SumBagUpdate(InHand(), p.hands, a.w, NextHand(work, p, a));
      DoneGrows(p.done, a.w, Finished(work, p, a));
      Rebalance(SumBag(BagOf(), p.done), SumBag(InHand(), p.hands), multiset(p.q.popped),
                InHand()(p.hands[a.w]), InHand()(NextHand(work, p, a)),
                multiset(Finished(work, p, a)), multiset(Taken(p, a)));
    }
  }

  lemma StepOrdered<J>(work: J -> seq<Record>, p: Pool<J>, a: Act<J>)
    requires Shaped(work, p) && Ordered(work, p) && Enabled(work, p, a)
    ensures Ordered(work, Apply(work, p, a))
  {
    hide M.Inv, Frame, M.Apply;
    var p' := Apply(work, p, a);
    match a
    case Unlock(w) =>
      var h := p.hands[w];
      assert p'.log[..|p.log|] == p.log;
      assert work(h.job)[..h.next + 1] == work(h.job)[..h.next] + [work(h.job)[h.next]];
    case Finish(w) =>
      var h := p.hands[w];
      assert work(h.job)[..h.next] == work(h.job);
      assert p'.done[w][..|p.done[w]|] == p.done[w];
    case _ =>
  }

  lemma StepInv<J>(work: J -> seq<Record>, p: Pool<J>, a: Act<J>)
    requires Inv(work, p) && Enabled(work, p, a)
    ensures Inv(work, Apply(work, p, a))
  {
    hide Shaped, Framed, RecordsBalance, JobsBalance, Ordered;
    StepShaped(work, p, a);
    StepFramed(work, p, a);
    StepRecordsBalance(work, p, a);
    StepJobsBalance(work, p, a);
    StepOrdered(work, p, a);
  }

  // ---------------------------------------------------------------- what others see of a step

  /** What a step of a worker, or a spurious wakeup, leaves alone. */
  lemma LeavesControllerAlone<J>(work: J -> seq<Record>, p: Pool<J>, a: Act<J>)
    requires Shaped(work, p) && Enabled(work, p, a) && (ByWorkers(a) || Spurious(a))
    ensures var p' := Apply(work, p, a);
            && p'.q.pushed == p.q.pushed && p'.q.closed == p.q.closed && p'.q.hand == p.q.hand
            && |p'.q.prods| == 1 && |p'.hands| == |p.hands|
            && (p'.q.prods[0] == M.Ready <==> p.q.prods[0] == M.Ready)
            && p'.out.open == p.out.open && p'.out.rd == p.out.rd && p'.out.cap == p.out.cap
  {
    hide M.Inv, Frame, HandOk;
  }

  /** The units the stream is committed to: the whole frames and the one being written. */
  ghost function Committed<J>(work: J -> seq<Record>, p: Pool<J>): seq<Unit>
  {
    Sent(p.log) +
    if p.lock.None? || p.lock.value >= |p.hands| then []
    else match p.hands[p.lock.value]
         case Holding(j, i, s) => if i < |work(j)| then [Rec(work(j)[i])] else []
         case _ => []
  }

  lemma CommittedRecords<J>(work: J -> seq<Record>, p: Pool<J>)
    ensures forall i :: 0 <= i < |Committed(work, p)| ==> Committed(work, p)[i].Rec?
  {
  }

  lemma StreamIsCommitted<J>(work: J -> seq<Record>, p: Pool<J>)
    requires Shaped(work, p) && Framed(work, p)
    ensures p.out.hist <= Stream(Committed(work, p))
  {
    hide M.Inv, Stream, Frame;
    if p.lock.Some? {
      var h := p.hands[p.lock.value];
      assert h.Holding? && HandOk(work, h);
      StreamSnoc(Sent(p.log), Rec(work(h.job)[h.next]));
      FrameIs(work(h.job)[h.next]);
    } else {
      assert Committed(work, p) == Sent(p.log);
    }
  }

  /** Nothing committed is ever taken back. */
  lemma CommittedGrows<J>(work: J -> seq<Record>, p: Pool<J>, a: Act<J>)
    requires Shaped(work, p) && Enabled(work, p, a)
    ensures Committed(work, p) <= Committed(work, Apply(work, p, a))
    ensures p.out.hist <= Apply(work, p, a).out.hist
  {
    hide M.Inv, M.Apply, Frame, HandOk;
    var p' := Apply(work, p, a);
    if a.Unlock? {
      var h := p.hands[a.w];
      assert p.lock == Some(a.w);
      assert Sent(p'.log) == Sent(p.log) + [Rec(work(h.job)[h.next])];
      assert Committed(work, p') == Committed(work, p);
    } else if p.lock.Some? {
      assert p'.lock == p.lock && p'.log == p.log;
      var h, h' := p.hands[p.lock.value], p'.hands[p.lock.value];
      assert h.Holding? && h'.Holding? && h'.job == h.job && h'.next == h.next;
    }
  }

  lemma InvParts<J>(work: J -> seq<Record>, p: Pool<J>)
    requires Inv(work, p)
    ensures Shaped(work, p) && Framed(work, p) && M.Inv(p.q) && Valid(p.out)
    ensures |p.q.prods| == 1 && |p.hands| == |p.q.cons|
  {
    hide M.Inv, HandOk, Framed, RecordsBalance, JobsBalance, Ordered;
  }

  /** Committed units depend on the log, the lock and the hands only. */
  lemma SameCommitted<J>(work: J -> seq<Record>, p: Pool<J>, p': Pool<J>)
    requires p'.log == p.log && p'.lock == p.lock && p'.hands == p.hands
    ensures Committed(work, p') == Committed(work, p) && Torn(work, p') == Torn(work, p)
  {
    hide Frame, Sent;
  }

  /** The controller's steps do not touch the output. */
  lemma LeavesOutputAlone<J>(work: J -> seq<Record>, p: Pool<J>, a: Act<J>)
    requires Enabled(work, p, a) && (a.Feed? || a.Insert? || a.Shut?)
    ensures var p' := Apply(work, p, a);
            && p' == p.(q := M.Apply(p.q, Queued(a))) && Committed(work, p') == Committed(work, p)
  {
    SameCommitted(work, p, Apply(work, p, a));
    hide M.Enabled, M.Apply, Frame, Committed;
  }

  lemma SettledStep<J>(work: J -> seq<Record>, p: Pool<J>, a: Act<J>)
    requires M.Settled(p.q) && Enabled(work, p, a)
    ensures M.Settled(Apply(work, p, a).q)
  {
    if a.Feed? || a.Insert? || a.Shut? || a.Take? || a.RouseFeeder? || a.RouseWorker? {
      M.SettledStep(p.q, Queued(a));
    }
    hide M.Settled, M.Apply, Frame;
  }

  /** A worker process closes its standard output when it exits. */
  lemma ExitKeepsInv<J>(work: J -> seq<Record>, p: Pool<J>)
    requires Inv(work, p)
    ensures Inv(work, p.(out := p.out.(open := false)))
    ensures Committed(work, p.(out := p.out.(open := false))) == Committed(work, p)
  {
    hide M.Inv, Torn, Committed, HandOk, Frame, SumBag, Records, ByWorker, Started, Stream, Sent;
    var p' := p.(out := p.out.(open := false));
    SameCommitted(work, p, p');
    assert Shaped(work, p') && Framed(work, p') by { hide RecordsBalance, JobsBalance, Ordered; }
    assert Ordered(work, p') && JobsBalance(p') && RecordsBalance(work, p') by { hide Shaped, Framed; }
    hide Shaped, Framed, RecordsBalance, JobsBalance, Ordered;
  }

  // ---------------------------------------------------------------- every schedule

  ghost predicate Schedule<J>(work: J -> seq<Record>, p: Pool<J>, acts: seq<Act<J>>)
    decreases |acts|
  {
    acts == [] || (Enabled(work, p, acts[0]) && Schedule(work, Apply(work, p, acts[0]), acts[1..]))
  }

  ghost function After<J>(work: J -> seq<Record>, p: Pool<J>, acts: seq<Act<J>>): Pool<J>
    requires Schedule(work, p, acts)
    decreases |acts|
  {
    if acts == [] then p else After(work, Apply(work, p, acts[0]), acts[1..])
  }

  lemma {:induction false} ScheduleInv<J>(work: J -> seq<Record>, p: Pool<J>, acts: seq<Act<J>>)
    requires Inv(work, p) && Schedule(work, p, acts)
    ensures Inv(work, After(work, p, acts))
    decreases |acts|
  {
    hide Inv;
    if acts != [] {
      StepInv(work, p, acts[0]);
      ScheduleInv(work, Apply(work, p, acts[0]), acts[1..]);
    }
  }

  /** Frame atomicity: after any interleaving of partial writes the stream is whole frames and then a prefix of the
      mutex owner's frame; each worker's frames keep its emit order; the counter counts the whole frames. */
  lemma FramesAreAtomic<J>(work: J -> seq<Record>, p0: Pool<J>, acts: seq<Act<J>>)
    requires Initial(p0) && Schedule(work, p0, acts)
    ensures var p := After(work, p0, acts);
            && p.count == |p.log|
            && (p.lock.None? ==> p.out.hist == Stream(Sent(p.log)))
            && (p.lock.Some? ==>
                  && p.lock.value < |p.hands|
                  && var h := p.hands[p.lock.value];
                  && h.Holding? && h.next < |work(h.job)| && h.sent <= |Frame(work(h.job)[h.next])|
                  && p.out.hist == Stream(Sent(p.log)) + Frame(work(h.job)[h.next])[..h.sent])
            && |p.done| == |p.hands|
            && (forall w :: 0 <= w < |p.hands| ==>
                  ByWorker(p.log, w) == FlatMap(work, p.done[w]) + Started(work, p.hands[w]))
  {
    InitialInv(work, p0);
    ScheduleInv(work, p0, acts);
  }

  // ---------------------------------------------------------------- the end

  /** Once every worker has gone, no frame is torn. */
  lemma QuietIsWhole<J>(work: J -> seq<Record>, p: Pool<J>)
    requires Shaped(work, p) && Framed(work, p) && M.AllGone(p.q)
    ensures p.lock == None && (forall w :: 0 <= w < |p.hands| ==> p.hands[w] == Free)
    ensures Committed(work, p) == Sent(p.log) && p.out.hist == Stream(Sent(p.log))
  {
    hide M.Inv, Stream, Frame, HandOk;
    forall w | 0 <= w < |p.hands| ensures p.hands[w] == Free {
      assert p.q.cons[w] == M.Gone;
    }
  }

  ghost predicate Over<J>(p: Pool<J>)
  {
    M.AllGone(p.q) && p.q.items == []
  }

  /** When the workers have gone and nothing is left in the queue, the stream is whole and carries exactly the
      records of the jobs that were fed, each job's once. */
  lemma OverIsComplete<J>(work: J -> seq<Record>, p: Pool<J>)
    requires Inv(work, p) && Over(p)
    ensures p.lock == None && p.out.hist == Stream(Sent(p.log))
    ensures multiset(Records(p.log)) == SumBag(WorkBag(work), p.q.pushed)
    ensures SumBag(BagOf(), p.done) == multiset(p.q.pushed)
  {
    hide SumBag, Stream, Frame, Records, Sent, HandOk;
    forall w | 0 <= w < |p.hands| ensures p.hands[w] == Free {
      assert p.q.cons[w] == M.Gone;
    }
    SumBagAllEmpty(Pending(work), p.hands);
    SumBagAllEmpty(InHand(), p.hands);
    assert multiset(p.q.pushed) == multiset(p.q.popped);
    SumBagPermutation(WorkBag(work), p.q.popped, p.q.pushed);
  }

  // ---------------------------------------------------------------- what is left open

  /** The write of a worker inside an emit takes any number of bytes of the rest of its frame that fit. */
  lemma AnyWrite<J>(work: J -> seq<Record>, p: Pool<J>, w: nat, k: nat)
    requires Shaped(work, p)
    ensures w < |p.hands| && p.hands[w].Holding? ==>
              var h := p.hands[w];
              && h.next < |work(h.job)|
              && (p.out.open ==>
                    (Enabled(work, p, Send(w, k))
                     <==> 1 <= k <= |Encode(Rec(work(h.job)[h.next]))| - h.sent
                          && k <= p.out.cap - (|p.out.hist| - p.out.rd)))
  {
    hide M.Inv, Encode;
  }

  /** Nothing in the code holds the worker up: it is not asleep or gone, and if it is about to emit, the mutex is free;
      if it is inside an emit, it has written its frame. */
  ghost predicate MayStep<J>(work: J -> seq<Record>, p: Pool<J>, w: nat)
  {
    && w < |p.hands| == |p.q.cons|
    && match p.hands[w]
       case Free => p.q.cons[w] == M.Ready || p.q.cons[w] == M.Awake
       case Busy(j, i) => i == |work(j)| || p.lock.None?
       case Holding(j, i, sent) => i < |work(j)| && sent == |Encode(Rec(work(j)[i]))|
  }

  lemma WorkerMayStep<J>(work: J -> seq<Record>, p: Pool<J>, w: nat) returns (a: Act<J>)
    requires Shaped(work, p) && MayStep(work, p, w)
    ensures ByWorkers(a) && a.w == w && !a.Send? && Enabled(work, p, a)
  {
    hide M.Inv, Encode;
    match p.hands[w]
    case Free => a := Take(w, M.Sleeper(p.q.prods));
    case Busy(j, i) => a := if i == |work(j)| then Finish(w) else Lock(w);
    case Holding(_, _, _) => a := Unlock(w);
  }
}
