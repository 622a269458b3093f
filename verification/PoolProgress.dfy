/** Why a pool neither runs for ever nor gets stuck on its own: a cost that every step but a spurious wakeup pays
    from, and the exhaustive list of what can block all its workers at once. */
module PoolProgress {
  import opened Collections
  import opened Wire
  import opened Pipes
  import opened Pool
  import M = Monitor

  /** What is left of a job from its i-th record on: each byte is written and later read, each frame is locked and
      unlocked. */
  ghost function Rest<J>(work: J -> seq<Record>, j: J, i: nat): nat
    decreases |work(j)| - i
  {
    if i >= |work(j)| then 0 else 2 * |Frame(work(j)[i])| + 2 + Rest(work, j, i + 1)
  }

  ghost function HandCostOf<J>(work: J -> seq<Record>, h: Hand<J>): nat
  {
    match h
    case Free => 0
    case Busy(j, i) => 1 + Rest(work, j, i)
    case Holding(j, i, s) =>
      if i < |work(j)| && s <= |Frame(work(j)[i])| then 2 + 2 * (|Frame(work(j)[i])| - s) + Rest(work, j, i + 1) else 0
  }

  ghost function HandCost<J>(work: J -> seq<Record>): Hand<J> -> nat { h => HandCostOf(work, h) }

  ghost function ItemCost<J>(work: J -> seq<Record>): J -> nat { j => 4 + Rest(work, j, 0) }

  ghost function ThreadCost(ts: seq<M.Thread>): nat 
  {
    2 * M.Count(ts, M.Ready) + M.Count(ts, M.Entering) + M.Count(ts, M.Awake)
  }

  ghost function Cost<J>(work: J -> seq<Record>, p: Pool<J>): nat
    requires Valid(p.out)
  {
    SumNat(ItemCost(work), p.q.items) + SumNat(HandCost(work), p.hands)
    + ThreadCost(p.q.cons) + ThreadCost(p.q.prods) + (if p.q.closed then 0 else |p.q.cons| + 1) + Unread(p.out)
  }

  lemma SignalCost(ts: seq<M.Thread>, sig: nat)
    requires M.CanSignal(ts, sig)
    ensures ThreadCost(M.Signal(ts, sig)) <= ThreadCost(ts) + 1
  {
    M.SignalCounts(ts, sig);
  }

  lemma MoveCost(ts: seq<M.Thread>, i: nat, v: M.Thread)
    requires i < |ts| && (ts[i] == M.Ready || ts[i] == M.Entering || ts[i] == M.Awake)
    ensures ts[i] == M.Ready && v == M.Entering ==> ThreadCost(ts[i := v]) < ThreadCost(ts)
    ensures v == M.Ready ==> ThreadCost(ts[i := v]) <= ThreadCost(ts) + 1
    ensures v == M.Asleep || v == M.Gone ==> ThreadCost(ts[i := v]) < ThreadCost(ts)
  {
    M.CountUpdate(ts, i, v);
  }

  lemma {:induction false} BroadcastCost(ts: seq<M.Thread>)
    ensures ThreadCost(M.Broadcast(ts)) <= ThreadCost(ts) + |ts|
  {
    if ts != [] {
      var n := |ts| - 1;
      BroadcastCost(ts[..n]);
      assert ts == ts[..n] + [ts[n]];
      assert M.Broadcast(ts) == M.Broadcast(ts[..n]) + [M.Broadcast(ts)[n]];
    }
  }

  /** Every step of a worker pays. */
  lemma WorkerStepPays<J>(work: J -> seq<Record>, p: Pool<J>, a: Act<J>)
    requires Shaped(work, p) && Enabled(work, p, a) && ByWorkers(a)
    ensures Cost(work, Apply(work, p, a)) < Cost(work, p)
  {
    hide M.Inv, Frame, SumNat, ThreadCost;
    var p' := Apply(work, p, a);
    SumNatUpdate(HandCost(work), p.hands, a.w, p'.hands[a.w]);
    if a.Take? {
      MoveCost(p.q.cons, a.w, p'.q.cons[a.w]);
      if |p.q.items| > 0 {
        SignalCost(p.q.prods, a.sig);
        SumNatSnoc(ItemCost(work), p.q.items);
      }
    }
  }

  lemma SumNatSnoc<T>(f: T -> nat, s: seq<T>)
    requires s != []
    ensures SumNat(f, s) == SumNat(f, s[..|s| - 1]) + f(s[|s| - 1])
  {
  }

  /** A push that stores charges the pool for the job; one that blocks pays. */
  lemma FeedCharges<J>(work: J -> seq<Record>, p: Pool<J>, a: Act<J>, x: J)
    requires Shaped(work, p) && Enabled(work, p, a)
    requires (a.Feed? && x == a.x) || (a.Insert? && 0 in p.q.hand && x == p.q.hand[0])
    ensures var p' := Apply(work, p, a);
            if p'.q.prods[0] == M.Ready
            then p'.q.pushed == p.q.pushed + [x] && Cost(work, p') <= Cost(work, p) + ItemCost(work)(x) + 2
            else p'.q.pushed == p.q.pushed && Cost(work, p') < Cost(work, p)
  {
    hide M.Inv, Frame, SumNat, ThreadCost;
    var p' := Apply(work, p, a);
    MoveCost(p.q.prods, 0, p'.q.prods[0]);
    if p'.q.prods[0] == M.Ready {
      SignalCost(p.q.cons, a.sig);
      assert p'.q.items[..|p.q.items|] == p.q.items;
      SumNatSnoc(ItemCost(work), p'.q.items);
    }
  }

  lemma ShutPays<J>(work: J -> seq<Record>, p: Pool<J>)
    requires Shaped(work, p) && !p.q.closed
    ensures Cost(work, Apply(work, p, Shut)) < Cost(work, p)
  {
    hide M.Inv, Frame, SumNat, ThreadCost;
    BroadcastCost(p.q.cons);
  }

  lemma DrainPays<J>(work: J -> seq<Record>, p: Pool<J>, k: nat)
    requires Shaped(work, p) && Enabled(work, p, Drain(k))
    ensures Cost(work, Apply(work, p, Drain(k))) == Cost(work, p) - k
  {
  }

  // ---------------------------------------------------------------- who can step

  /** A worker that is neither asleep nor gone can step, unless it is inside an emit and the pipe is full or it waits
      for the mutex of another such worker. */
  lemma WorkerCanStep<J>(work: J -> seq<Record>, p: Pool<J>, w: nat) returns (a: Act<J>)
    requires Shaped(work, p) && w < |p.hands| && p.out.open && Unread(p.out) < p.out.cap
    requires p.q.cons[w] == M.Ready || p.q.cons[w] == M.Awake
    ensures ByWorkers(a) && Enabled(work, p, a)
  {
    hide M.Inv, Frame;
    var h := p.hands[w];
    match h
    case Free => a := Take(w, M.Sleeper(p.q.prods));
    case Busy(j, i) =>
      if i == |work(j)| { a := Finish(w); }
      else if p.lock.None? { a := Lock(w); }
      else { a := HolderCanStep(work, p); }
    case Holding(j, i, s) => a := HolderCanStep(work, p);
  }

  lemma HolderCanStep<J>(work: J -> seq<Record>, p: Pool<J>) returns (a: Act<J>)
    requires Shaped(work, p) && p.lock.Some? && p.out.open && Unread(p.out) < p.out.cap
    ensures ByWorkers(a) && Enabled(work, p, a)
  {
    hide M.Inv, Frame;
    var w := p.lock.value;
    var h := p.hands[w];
    assert h.Holding? && HandOk(work, h);
    if h.sent == |Frame(work(h.job)[h.next])| { a := Unlock(w); } else { a := Send(w, 1); }
  }

  /** With room in the output pipe, either some worker can step, or all have gone, or the queue is open and empty and
      its feeder is not blocked. */
  lemma SomebodyCanStep<J>(work: J -> seq<Record>, p: Pool<J>) returns (r: Option<Act<J>>)
    requires Shaped(work, p) && |p.hands| > 0 && p.out.open && Unread(p.out) < p.out.cap
    ensures r.Some? ==> ByWorkers(r.value) && Enabled(work, p, r.value)
    ensures r.None? ==> M.AllGone(p.q) || (p.q.items == [] && !p.q.closed && p.q.prods[0] != M.Asleep)
  {
    hide Frame;
    M.NeverBothBlocked(p.q);
    if M.Ready in p.q.cons || M.Awake in p.q.cons {
      var w :| 0 <= w < |p.q.cons| && (p.q.cons[w] == M.Ready || p.q.cons[w] == M.Awake);
      var a := WorkerCanStep(work, p, w);
      r := Some(a);
    } else {
      r := None;
      if !M.AllGone(p.q) {
        var w :| 0 <= w < |p.q.cons| && p.q.cons[w] != M.Gone;
        assert p.q.cons[w] == M.Asleep;
        assert p.q.prods[0] == M.Asleep ==> M.Awake !in p.q.prods;
      }
    }
  }
}
