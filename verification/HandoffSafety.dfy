/** The hand-off of Handoff is safe: in every run everybody stands where the code thinks, and unless a push fails after
    it has stored its element, each node has one owner at a time, who alone touches it. */
module HandoffSafety {
  import opened Collections
  import opened Handoff
  import M = Monitor

  // ---------------------------------------------------------------- the controller's walk

  /** What a step of the controller pushes or frees. */
  ghost function HandedOut(s: State, a: Act): seq<nat>
  {
    if (a.Push? && |s.q.items| < s.q.cap) || a.SweepFree? then
      match s.ctl
      case Saved(_, node, _) => OneOf(node)
      case Freeing(_, node, _) => OneOf(node)
      case _ => []
    else []
  }

  predicate ByController(a: Act)
  {
    !a.Create? && !a.Pop? && !a.Reduce? && !a.Release? && !Spurious(a)
  }

  lemma FirstBucket(c: Config)
    requires ValidConfig(c)
    ensures IsList(c.next, Head(c, 0), ChainAt(c, 0)) && |c.head| > 0
    ensures All(c) == [] + (ChainAt(c, 0) + FlatFrom(c.chains, 1)) && All(c) == ChainAt(c, 0) + FlatFrom(c.chains, 1)
  {
  }

  lemma NextChain(c: Config, b: nat)
    requires ValidConfig(c)
    ensures b < |c.head| ==> IsList(c.next, Head(c, b), ChainAt(c, b))
    ensures b < |c.head| ==> FlatFrom(c.chains, b) == ChainAt(c, b) + FlatFrom(c.chains, b + 1)
    ensures (b >= |c.head| ==> FlatFrom(c.chains, b) == []) && [] + FlatFrom(c.chains, b) == FlatFrom(c.chains, b)
  {
  }

  lemma HeadOfList(next: map<nat, Option<nat>>, node: Option<nat>, ids: seq<nat>)
    requires IsList(next, node, ids)
    ensures node.None? ==> ids == []
    ensures node.Some? ==> ids == [node.value] + Tail(ids)
    ensures node.Some? ==> node.value in next && IsList(next, next[node.value], Tail(ids))
  {
  }

  lemma StartMoves(c: Config, s: State, a: Act)
    requires ValidConfig(c) && Enabled(c, s, a) && (a.GiveUp? || a.CreateFails? || a.Begin?)
    ensures var s' := Apply(c, s, a);
            Placed(c, s'.ctl, s'.ahead) && Owned(c, s'.ctl, s'.ahead) == Owned(c, s.ctl, s.ahead)
  {
    hide IsList, FlatFrom, All, Head, ChainAt, ValidConfig;
    FirstBucket(c);
  }

  lemma BucketMoves(c: Config, s: State, a: Act)
    requires ValidConfig(c) && Placed(c, s.ctl, s.ahead) && Enabled(c, s, a) && (a.NextBucket? || a.SweepBucket?)
    ensures var s' := Apply(c, s, a);
            Placed(c, s'.ctl, s'.ahead) && Owned(c, s'.ctl, s'.ahead) == Owned(c, s.ctl, s.ahead)
  {
    hide FlatFrom, IsList, ValidConfig, Head, ChainAt, All;
    HeadOfList(c.next, s.ctl.node, s.ahead);
    NextChain(c, s.ctl.b + 1);
  }

  lemma SaveMoves(c: Config, s: State, a: Act)
    requires Placed(c, s.ctl, s.ahead) && Enabled(c, s, a) && (a.SaveNext? || a.SweepSave?)
    ensures s.ctl.node.value in Owned(c, s.ctl, s.ahead)
    ensures var s' := Apply(c, s, a);
            Placed(c, s'.ctl, s'.ahead) && Owned(c, s'.ctl, s'.ahead) == Owned(c, s.ctl, s.ahead)
  {
    var n := s.ctl.node.value;
    hide IsList, FlatFrom, Tail, Mine;
    HeadOfList(c.next, s.ctl.node, s.ahead);
    Assoc([n], Tail(s.ahead), FlatFrom(c.chains, s.ctl.b + 1));
  }

  /** The remaining steps keep the pointers, and hand out `node` or nothing. */
  lemma OtherMoves(c: Config, s: State, a: Act)
    requires Placed(c, s.ctl, s.ahead) && Enabled(c, s, a) && ByController(a)
    requires !a.GiveUp? && !a.CreateFails? && !a.Begin? && !a.NextBucket? && !a.SweepBucket? && !a.SaveNext?
    requires !a.SweepSave?
    ensures var s' := Apply(c, s, a);
            && Placed(c, s'.ctl, s'.ahead)
            && Owned(c, s.ctl, s.ahead) == HandedOut(s, a) + Owned(c, s'.ctl, s'.ahead)
  {
    hide IsList, FlatFrom, All, M.Apply, M.Store, Retreat, Mine;
    var s' := Apply(c, s, a);
    var b := if s.ctl.Waiting? then s.ctl.b else 0;
    assert s.ctl.Waiting? && s.ctl.node.None? ==>
             OneOf(s.ctl.node) + (s.ahead + FlatFrom(c.chains, b + 1)) == s.ahead + FlatFrom(c.chains, b + 1);
  }

  lemma ControllerMoves(c: Config, s: State, a: Act)
    requires ValidConfig(c) && Placed(c, s.ctl, s.ahead) && Enabled(c, s, a) && ByController(a)
    ensures var s' := Apply(c, s, a);
            && Placed(c, s'.ctl, s'.ahead)
            && Owned(c, s.ctl, s.ahead) == HandedOut(s, a) + Owned(c, s'.ctl, s'.ahead)
  {
    hide ValidConfig, Placed, Enabled, Apply, Owned;
    if a.GiveUp? || a.CreateFails? || a.Begin? {
      StartMoves(c, s, a);
    } else if a.NextBucket? || a.SweepBucket? {
      BucketMoves(c, s, a);
    } else if a.SaveNext? || a.SweepSave? {
      SaveMoves(c, s, a);
    } else {
      OtherMoves(c, s, a);
    }
  }

  // ---------------------------------------------------------------- the queue

  lemma QueueStep(q: M.Queue<nat>, a: M.Act<nat>)
    requires Sound(q) && M.Enabled(q, a)
    ensures Sound(M.Apply(q, a))
  {
    if a.Pop? {
      PopSound(q, a.c, a.sig);
    } else if a.Push? {
      PushSound(q, a.p, a.sig);
    }
  }

  lemma PopSound(q: M.Queue<nat>, i: nat, sig: nat)
    requires Sound(q) && M.Enabled(q, M.Pop(i, sig))
    ensures Sound(M.Apply(q, M.Pop(i, sig)))
  {
    if q.items != [] {
      var n := |q.items| - 1;
      assert q.items == q.items[..n] + [q.items[n]];
    }
  }

  lemma PushSound(q: M.Queue<nat>, p: nat, sig: nat)
    requires Sound(q) && M.Enabled(q, M.Push(p, sig))
    ensures Sound(M.Apply(q, M.Push(p, sig)))
  {
  }

  lemma RetreatKeeps(ctl: Ctl, q: M.Queue<nat>)
    requires AtQueue(ctl, q) && Sound(q)
    ensures Sound(Retreat(q)) && (M.Inv(q) ==> M.Inv(Retreat(q)))
    ensures Retreat(q).prods == [M.Ready] && Retreat(q).hand == map[]
  {
  }

  lemma StoreKeeps(ctl: Ctl, q: M.Queue<nat>, sig: nat)
    requires AtQueue(ctl, q) && Sound(q) && InCriticalSection(q) && |q.items| < q.cap
    ensures var q' := M.Store(q, 0, q.hand[0], sig);
            Sound(q') && q'.prods == [M.Ready] && q'.hand == map[] && q.hand[0] in q'.pushed
  {
  }

  // ---------------------------------------------------------------- steps of the controller

  /** A step of the controller that leaves queue and workers alone. */
  predicate WalksOnly(a: Act)
  {
    || a.GiveUp? || a.CreateFails? || a.Begin? || a.NextBucket? || a.SaveNext?
    || a.JoinFailed? || a.SweepBucket? || a.SweepSave? || a.SweepFree? || a.Join?
  }

  lemma NobodyPushed(q: M.Queue<nat>)
    requires Sound(q) && q.pushed == []
    ensures q.items == []
  {
    assert multiset(q.items) <= multiset(q.pushed);
    assert |multiset(q.items)| <= |multiset(q.pushed)|;
  }

  lemma DoneIsDrained(c: Config, s: State)
    requires Orderly(c, s) && AllDone(s.hands, s.q.cons)
    ensures s.q.items == []
  {
    hide ValidConfig, IsList, FlatFrom, All, Placed, AtQueue, M.Inv, Crewed, Sound;
    WorkersExist(c);
    if s.hands[0].Unborn? {
      NobodyPushed(s.q);
    } else {
      assert s.q.cons[0] == M.Gone;
    }
  }

  lemma WorkersExist(c: Config)
    requires ValidConfig(c)
    ensures c.workers > 0 && c.capacity > 0
  {
  }

  lemma WalkStaff(s: State, ctl': Ctl)
    requires Staffed(s.ctl, s.hands, s.q.pushed) && Dismissed(s.ctl, s.hands, s.q) && AtQueue(s.ctl, s.q)
    requires !s.ctl.Saved?
    requires !ctl'.Starting? && !ctl'.Waiting? && !ctl'.Joining? && (s.q.closed ==> MayBeClosed(ctl'))
    requires ctl'.Walking? || ctl'.Saved? ==> s.ctl.Walking? || s.ctl == Starting(|s.hands|)
    requires Over(ctl') ==> AllDone(s.hands, s.q.cons) && s.q.items == []
    ensures Staffed(ctl', s.hands, s.q.pushed) && Dismissed(ctl', s.hands, s.q) && AtQueue(ctl', s.q)
  {
  }

  lemma StaffFacts(s: State)
    requires Staffed(s.ctl, s.hands, s.q.pushed) && Dismissed(s.ctl, s.hands, s.q)
    ensures s.q.closed ==> MayBeClosed(s.ctl)
    ensures Over(s.ctl) ==> AllDone(s.hands, s.q.cons) && s.q.items == []
    ensures s.ctl.Starting? ==> s.q.pushed == []
    ensures s.ctl == Starting(0) && |s.hands| == |s.q.cons| ==> AllDone(s.hands, s.q.cons)
  {
  }

  lemma WalkOrderly(c: Config, s: State, a: Act)
    requires Orderly(c, s) && Enabled(c, s, a) && WalksOnly(a)
    ensures Orderly(c, Apply(c, s, a))
  {
    CrewSize(s.hands, s.q.cons);
    hide ValidConfig, Placed, AtQueue, Sound, M.Inv, Crewed, Staffed, Dismissed, AllDone, Enabled, Apply,
         MayBeClosed, Over,
         Owned, WalksOnly, Leaving;
    if AllDone(s.hands, s.q.cons) { DoneIsDrained(c, s); }
    ControllerMoves(c, s, a) by { WalkIsController(a); }
    StaffFacts(s);
    WalkTurns(c, s, a);
    if s.ctl.Starting? { NobodyPushed(s.q); }
    WalkStaff(s, Apply(c, s, a).ctl);
  }

  lemma CrewSize(hands: seq<Worker>, cons: seq<M.Thread>)
    requires Crewed(hands, cons)
    ensures |hands| == |cons|
  {
  }

  lemma WalkIsController(a: Act)
    requires WalksOnly(a)
    ensures ByController(a)
  {
  }

  lemma WalkTurns(c: Config, s: State, a: Act)
    requires Enabled(c, s, a) && WalksOnly(a)
    ensures var s' := Apply(c, s, a);
            && s'.q == s.q && s'.hands == s.hands && s'.stored == s.stored
            && !s.ctl.Saved? && !s'.ctl.Starting? && !s'.ctl.Waiting? && !s'.ctl.Joining?
            && (MayBeClosed(s.ctl) ==> MayBeClosed(s'.ctl)) && (Leaving(s.ctl) ==> Leaving(s'.ctl))
            && (s'.ctl.Walking? || s'.ctl.Saved? ==> s.ctl.Walking? || s.ctl == Starting(|s.hands|))
            && (Over(s'.ctl) ==> Over(s.ctl) || s.ctl == Starting(0) || AllDone(s.hands, s.q.cons))
  {
    hide Mine, Head, ChainAt, Next, Tail, AllDone;
  }

  lemma CloseStaff(s: State, ctl': Ctl)
    requires Staffed(s.ctl, s.hands, s.q.pushed) && Dismissed(s.ctl, s.hands, s.q) && Crewed(s.hands, s.q.cons)
    requires AtQueue(s.ctl, s.q) && !s.ctl.Saved? && (ctl'.Waiting? || ctl'.Joining?)
    ensures var q := M.Apply(s.q, M.Close);
            && Staffed(ctl', s.hands, q.pushed) && Dismissed(ctl', s.hands, q) && Crewed(s.hands, q.cons)
            && AtQueue(ctl', q)
  {
  }

  lemma CloseOrderly(c: Config, s: State, a: Act)
    requires Orderly(c, s) && Enabled(c, s, a) && (a.CloseFailed? || a.Close?)
    ensures Orderly(c, Apply(c, s, a))
  {
    hide ValidConfig, Placed, AtQueue, Sound, M.Inv, Crewed, Staffed, Dismissed, Owned;
    ControllerMoves(c, s, a);
    QueueStep(s.q, M.Close);
    if !s.stored { M.StepInv(s.q, M.Close); }
    CloseStaff(s, Apply(c, s, a).ctl);
  }

  lemma EnterStaff(s: State)
    requires Staffed(s.ctl, s.hands, s.q.pushed) && Dismissed(s.ctl, s.hands, s.q) && Crewed(s.hands, s.q.cons)
    requires AtQueue(s.ctl, s.q) && s.ctl.Saved? && s.ctl.node.Some? && M.Enabled(s.q, M.Enter(0, s.ctl.node.value))
    ensures var q := M.Apply(s.q, M.Enter(0, s.ctl.node.value));
            && Staffed(s.ctl, s.hands, q.pushed) && Dismissed(s.ctl, s.hands, q) && Crewed(s.hands, q.cons)
            && AtQueue(s.ctl, q)
  {
  }

  /** A signal wakes a sleeper or nobody: it changes no worker that has a node or has gone. */
  lemma PushStaff(s: State, q: M.Queue<nat>, ctl': Ctl, sig: nat)
    requires Staffed(s.ctl, s.hands, s.q.pushed) && Dismissed(s.ctl, s.hands, s.q) && Crewed(s.hands, s.q.cons)
    requires s.ctl.Saved?
    requires q.closed == s.q.closed && (q.cons == s.q.cons || q.cons == M.Signal(s.q.cons, sig))
    requires ctl'.Walking? || ctl'.Saved? || ctl'.Abandoning?
    ensures Staffed(ctl', s.hands, q.pushed) && Dismissed(ctl', s.hands, q) && Crewed(s.hands, q.cons)
  {
  }

  lemma PushAt(s: State, sig: nat)
    requires AtQueue(s.ctl, s.q) && s.ctl.Saved? && s.ctl.node.Some? && M.Enabled(s.q, M.Push(0, sig))
    ensures var q := M.Apply(s.q, M.Push(0, sig));
            && q.closed == s.q.closed && q.cap == s.q.cap && (q.cons == s.q.cons || q.cons == M.Signal(s.q.cons, sig))
            && AtQueue(if |s.q.items| < s.q.cap then Walking(s.ctl.b, s.ctl.next) else s.ctl, q)
  {
  }

  lemma PushOrderly(c: Config, s: State, a: Act)
    requires Orderly(c, s) && Enabled(c, s, a) && (a.Enter? || a.Push?)
    ensures Orderly(c, Apply(c, s, a))
  {
    hide ValidConfig, Placed, AtQueue, Sound, M.Inv, Crewed, Staffed, Dismissed, Owned;
    ControllerMoves(c, s, a);
    var ma := if a.Enter? then M.Enter(0, s.ctl.node.value) else M.Push(0, a.sig);
    QueueStep(s.q, ma);
    if !s.stored { M.StepInv(s.q, ma); }
    if a.Enter? {
      EnterStaff(s);
    } else {
      PushAt(s, a.sig);
      hide M.Apply, M.Enabled;
      PushStaff(s, M.Apply(s.q, ma), Apply(c, s, a).ctl, a.sig);
    }
  }

  lemma FailureAt(ctl: Ctl, q: M.Queue<nat>)
    requires q.prods == [M.Ready] && q.hand == map[]
    ensures AtQueue(ctl, q)
  {
  }

  lemma FailureOrderly(c: Config, s: State, a: Act)
    requires Orderly(c, s) && Enabled(c, s, a) && (a.PushFails? || a.PushFailsStored?)
    ensures Orderly(c, Apply(c, s, a))
  {
    hide ValidConfig, Placed, AtQueue, Sound, M.Inv, Crewed, Staffed, Dismissed, Owned;
    ControllerMoves(c, s, a);
    var s' := Apply(c, s, a);
    if a.PushFails? {
      RetreatKeeps(s.ctl, s.q);
      PushStaff(s, s'.q, s'.ctl, 0);
    } else {
      StoreKeeps(s.ctl, s.q, a.sig);
      PushStaff(s, s'.q, s'.ctl, a.sig);
    }
    FailureAt(s'.ctl, s'.q);
  }

  // ---------------------------------------------------------------- steps of the workers

  lemma CreateOrderly(c: Config, s: State)
    requires Orderly(c, s) && Enabled(c, s, Create)
    ensures Orderly(c, Apply(c, s, Create))
  {
    hide ValidConfig, All, FlatFrom, IsList, Sound, M.Inv;
    assert s.hands[s.ctl.created].Unborn?;
  }

  /** Outside the queue a worker may turn from one state with a node to another, or become free. */
  lemma HandStaff(s: State, i: nat, w: Worker)
    requires Staffed(s.ctl, s.hands, s.q.pushed) && Dismissed(s.ctl, s.hands, s.q) && Crewed(s.hands, s.q.cons)
    requires i < |s.hands| && (s.hands[i].Has? || s.hands[i].Done?) && !w.Unborn?
    ensures Staffed(s.ctl, s.hands[i := w], s.q.pushed) && Dismissed(s.ctl, s.hands[i := w], s.q)
    ensures Crewed(s.hands[i := w], s.q.cons)
  {
    var hands := s.hands[i := w];
    assert s.q.cons[i] == M.Ready;
    assert !AllDone(s.hands, s.q.cons);
    assert forall k :: 0 <= k < |hands| ==> (hands[k].Unborn? <==> s.hands[k].Unborn?);
  }

  lemma HandOrderly(c: Config, s: State, a: Act)
    requires Orderly(c, s) && Enabled(c, s, a) && (a.Reduce? || a.Release?)
    ensures Orderly(c, Apply(c, s, a))
  {
    hide ValidConfig, Placed, AtQueue, Sound, M.Inv, Crewed, Staffed, Dismissed;
    HandStaff(s, a.i, if a.Reduce? then Done(s.hands[a.i].node) else Free);
  }

  /** Inside the queue a free worker may be handed an element, fall asleep, or go. */
  lemma PopStaff(s: State, i: nat, sig: nat, hands: seq<Worker>)
    requires Staffed(s.ctl, s.hands, s.q.pushed) && Dismissed(s.ctl, s.hands, s.q) && Crewed(s.hands, s.q.cons)
    requires i < |s.hands| && s.hands[i].Free? && M.Enabled(s.q, M.Pop(i, sig))
    requires if s.q.items == [] then hands == s.hands else hands == s.hands[i := Has(s.q.items[|s.q.items| - 1])]
    ensures var q := M.Apply(s.q, M.Pop(i, sig));
            Staffed(s.ctl, hands, q.pushed) && Dismissed(s.ctl, hands, q) && Crewed(hands, q.cons)
  {
    var q := M.Apply(s.q, M.Pop(i, sig));
    assert !AllDone(s.hands, s.q.cons);
    assert forall k :: 0 <= k < |hands| ==> (hands[k].Unborn? <==> s.hands[k].Unborn?);
  }

  lemma PopAt(ctl: Ctl, q: M.Queue<nat>, i: nat, sig: nat)
    requires AtQueue(ctl, q) && M.Enabled(q, M.Pop(i, sig))
    ensures AtQueue(ctl, M.Apply(q, M.Pop(i, sig))) && M.Apply(q, M.Pop(i, sig)).cap == q.cap
  {
  }

  lemma PopOrderly(c: Config, s: State, i: nat, sig: nat)
    requires Orderly(c, s) && Enabled(c, s, Pop(i, sig))
    ensures Orderly(c, Apply(c, s, Pop(i, sig)))
  {
    hide ValidConfig, Placed, AtQueue, Sound, M.Inv, Crewed, Staffed, Dismissed, M.Apply;
    QueueStep(s.q, M.Pop(i, sig));
    if !s.stored { M.StepInv(s.q, M.Pop(i, sig)); }
    PopStaff(s, i, sig, Apply(c, s, Pop(i, sig)).hands);
    PopAt(s.ctl, s.q, i, sig);
  }

  lemma WakeStaff(s: State, a: M.Act<nat>)
    requires Staffed(s.ctl, s.hands, s.q.pushed) && Dismissed(s.ctl, s.hands, s.q) && Crewed(s.hands, s.q.cons)
    requires AtQueue(s.ctl, s.q) && M.Enabled(s.q, a) && (a.WakeProducer? || a.WakeConsumer?)
    ensures var q := M.Apply(s.q, a);
            && Staffed(s.ctl, s.hands, q.pushed) && Dismissed(s.ctl, s.hands, q) && Crewed(s.hands, q.cons)
            && AtQueue(s.ctl, q) && q.cap == s.q.cap
  {
  }

  lemma WakeOrderly(c: Config, s: State, a: Act)
    requires Orderly(c, s) && Enabled(c, s, a) && Spurious(a)
    ensures Orderly(c, Apply(c, s, a))
  {
    hide ValidConfig, Placed, AtQueue, Sound, M.Inv, Crewed, Staffed, Dismissed, M.Apply;
    var ma := if a.WakeController? then M.WakeProducer(0) else M.WakeConsumer(a.i);
    QueueStep(s.q, ma);
    if !s.stored { M.StepInv(s.q, ma); }
    WakeStaff(s, ma);
  }

  /** Every step, failing or not, leaves everybody where the code thinks. */
  lemma StepOrderly(c: Config, s: State, a: Act)
    requires Orderly(c, s) && Enabled(c, s, a)
    ensures Orderly(c, Apply(c, s, a))
  {
    hide Orderly, Enabled, Apply;
    match a
    case Create => CreateOrderly(c, s);
    case CloseFailed => CloseOrderly(c, s, a);
    case Close => CloseOrderly(c, s, a);
    case Enter => PushOrderly(c, s, a);
    case Push(_) => PushOrderly(c, s, a);
    case PushFails => FailureOrderly(c, s, a);
    case PushFailsStored(_) => FailureOrderly(c, s, a);
    case Pop(i, sig) => PopOrderly(c, s, i, sig);
    case Reduce(_) => HandOrderly(c, s, a);
    case Release(_) => HandOrderly(c, s, a);
    case WakeController => WakeOrderly(c, s, a);
    case WakeWorker(_) => WakeOrderly(c, s, a);
    case _ => WalkOrderly(c, s, a);
  }

  // ---------------------------------------------------------------- a node has one owner

  lemma {:induction false} DistinctCounts(s: seq<nat>, n: nat)
    requires Distinct(s)
    ensures multiset(s)[n] <= 1
  {
    if s != [] {
      var k := |s| - 1;
      DistinctCounts(s[..k], n);
      assert s == s[..k] + [s[k]];
      if n == s[k] {
        assert n !in s[..k];
      }
    }
  }

  /** How often a node occurs among the owners: exactly once if it is in the table. */
  lemma OneOwner(c: Config, s: State, n: nat)
    requires Orderly(c, s) && Owners(c, s)
    ensures multiset(s.q.items)[n] + SumBag(Carried(), s.hands)[n] + multiset(s.released)[n] + multiset(s.swept)[n]
            + multiset(Owned(c, s.ctl, s.ahead))[n] == multiset(All(c))[n] <= 1
  {
    hide Placed, AtQueue, Owned, IsList, FlatFrom, Crewed, Staffed, Dismissed, LiveOk, Carried, Reducing, SumBag, M.Inv;
    DistinctCounts(All(c), n);
    hide Distinct, All, ValidConfig;
    assert multiset(s.q.pushed + (s.swept + Owned(c, s.ctl, s.ahead)))
        == multiset(s.q.pushed) + (multiset(s.swept) + multiset(Owned(c, s.ctl, s.ahead)));
  }

  lemma InBag(s: seq<nat>, n: nat)
    ensures n in s <==> multiset(s)[n] > 0
  {
    assert n in multiset(s) <==> n in s;
  }

  lemma PushedSomewhere(c: Config, s: State, n: nat)
    requires Orderly(c, s) && Owners(c, s)
    ensures multiset(s.q.pushed)[n]
         == multiset(s.q.items)[n] + SumBag(Carried(), s.hands)[n] + multiset(s.released)[n]
  {
    hide Placed, AtQueue, Owned, IsList, FlatFrom, Crewed, Staffed, Dismissed, LiveOk, Carried, Reducing, SumBag, M.Inv,
         ValidConfig, Shared;
  }

  /** What the controller still owns it may touch. */
  lemma OwnedIsMine(c: Config, s: State, n: nat)
    requires Orderly(c, s) && Owners(c, s) && n in Owned(c, s.ctl, s.ahead)
    ensures Mine(s, n)
  {
    OneOwner(c, s, n);
    PushedSomewhere(c, s, n);
    hide Orderly, Shared, Balanced, Owned, Carried, SumBag, All;
    InBag(Owned(c, s.ctl, s.ahead), n);
    InBag(s.q.pushed, n);
    InBag(s.released, n);
    InBag(s.swept, n);
    InBag(All(c), n);
  }

  lemma CarriedIs(hands: seq<Worker>, i: nat)
    requires i < |hands| && (hands[i].Has? || hands[i].Done?)
    ensures SumBag(Carried(), hands)[hands[i].node] > 0
  {
    SumBagUpdate(Carried(), hands, i, Free);
  }

  /** What a worker carries is still allocated. */
  lemma CarriedIsLive(c: Config, s: State, i: nat)
    requires Orderly(c, s) && Owners(c, s) && i < |s.hands| && (s.hands[i].Has? || s.hands[i].Done?)
    ensures s.hands[i].node in s.live
  {
    var n := s.hands[i].node;
    OneOwner(c, s, n);
    CarriedIs(s.hands, i);
    hide Orderly, Shared, Balanced, Owned, Carried, SumBag, All;
    InBag(s.released, n);
    InBag(s.swept, n);
    InBag(All(c), n);
  }

  // ---------------------------------------------------------------- steps keep the owners

  lemma ShareWalks(c: Config, s: State, s': State)
    requires Shared(c, s.ctl, s.ahead, s.q.pushed, s.swept) && Owned(c, s'.ctl, s'.ahead) == Owned(c, s.ctl, s.ahead)
    requires s'.q.pushed == s.q.pushed && s'.swept == s.swept && (BeforeSweep(s'.ctl) ==> BeforeSweep(s.ctl))
    ensures Shared(c, s'.ctl, s'.ahead, s'.q.pushed, s'.swept)
  {
    hide Owned, All;
  }

  lemma SharePushes(all: seq<nat>, pushed: seq<nat>, n: seq<nat>, rest: seq<nat>)
    requires pushed + ([] + (n + rest)) == all
    ensures pushed + n + ([] + rest) == all
  {
  }

  lemma ShareSweeps(all: seq<nat>, pushed: seq<nat>, swept: seq<nat>, n: seq<nat>, rest: seq<nat>)
    requires pushed + (swept + (n + rest)) == all
    ensures pushed + (swept + n + rest) == all
  {
    Assoc(swept, n, rest);
  }

  /** What the controller does to the records of ownership. */
  lemma ControllerEffect(c: Config, s: State, a: Act)
    requires Enabled(c, s, a) && ByController(a) && !a.PushFailsStored?
    requires AtQueue(s.ctl, s.q) && |s.q.items| <= s.q.cap
    ensures var s', h := Apply(c, s, a), HandedOut(s, a);
            && s'.q.pushed == s.q.pushed + (if a.Push? then h else [])
            && s'.swept == s.swept + (if a.SweepFree? then h else [])
            && (h != [] ==> a.Push? || a.SweepFree?) && (a.Push? ==> BeforeSweep(s.ctl))
            && (BeforeSweep(s'.ctl) ==> BeforeSweep(s.ctl)) && (a.SweepFree? ==> !BeforeSweep(s'.ctl))
            && s'.q.popped == s.q.popped && s'.hands == s.hands && s'.reduced == s.reduced && s'.released == s.released
            && s'.live == s.live - (if a.SweepFree? then set n | n in h else {})
            && s'.stored == s.stored
  {
    hide Mine, Head, ChainAt, Next, Tail, AllDone;
    if a.Push? { PushEffect(s, a.sig); }
    hide AtQueue;
    assert s.q.pushed + [] == s.q.pushed && s.swept + [] == s.swept;
  }

  lemma QueueFits(q: M.Queue<nat>)
    requires Sound(q)
    ensures |q.items| <= q.cap
  {
  }

  lemma PushEffect(s: State, sig: nat)
    requires s.ctl.Saved? && M.Enabled(s.q, M.Push(0, sig)) && AtQueue(s.ctl, s.q) && |s.q.items| <= s.q.cap
    ensures M.Apply(s.q, M.Push(0, sig)).pushed == s.q.pushed + HandedOut(s, Push(sig))
    ensures M.Apply(s.q, M.Push(0, sig)).popped == s.q.popped
  {
  }

  lemma ControllerShares(c: Config, s: State, a: Act)
    requires Orderly(c, s) && Owners(c, s) && Enabled(c, s, a) && ByController(a) && !a.PushFailsStored?
    ensures var s' := Apply(c, s, a); Shared(c, s'.ctl, s'.ahead, s'.q.pushed, s'.swept)
  {
    hide ValidConfig, Placed, AtQueue, Sound, M.Inv, Crewed, Staffed, Dismissed, Balanced, LiveOk, All, Owned,
         Enabled, Apply,
         HandedOut, ByController, BeforeSweep;
    ControllerMoves(c, s, a);
    QueueFits(s.q);
    ControllerEffect(c, s, a);
    var s', h := Apply(c, s, a), HandedOut(s, a);
    var rest := Owned(c, s'.ctl, s'.ahead);
    assert s.q.pushed + [] == s.q.pushed && s.swept + [] == s.swept && [] + rest == rest;
    if h == [] {
      ShareWalks(c, s, s');
    } else if a.Push? {
      SharePushes(All(c), s.q.pushed, h, rest);
    } else {
      ShareSweeps(All(c), s.q.pushed, s.swept, h, rest);
    }
  }

  lemma SweptOne(c: Config, live: set<nat>, released: seq<nat>, swept: seq<nat>, h: seq<nat>)
    requires LiveOk(c, live, released, swept)
    ensures LiveOk(c, live - (set n | n in h), released, swept + h) && swept + [] == swept && live - {} == live
  {
    hide All;
  }

  lemma ReleasedOne(c: Config, live: set<nat>, released: seq<nat>, swept: seq<nat>, n: nat)
    requires LiveOk(c, live, released, swept)
    ensures LiveOk(c, live - {n}, released + [n], swept)
  {
    hide All;
  }

  /** The controller touches only what it owns. */
  lemma ControllerTouches(c: Config, s: State, a: Act)
    requires Orderly(c, s) && Owners(c, s) && Enabled(c, s, a) && ByController(a) && !s.fault
    ensures !Apply(c, s, a).fault
  {
    hide ValidConfig, AtQueue, Sound, M.Inv, Crewed, Staffed, Dismissed, Owners, IsList, FlatFrom, M.Apply, M.Store,
         Retreat,
         Mine, Head, ChainAt, Next, Tail, AllDone;
    if a.SaveNext? || a.SweepSave? {
      SaveMoves(c, s, a);
      OwnedIsMine(c, s, s.ctl.node.value);
    } else if a.SweepFree? {
      var n := s.ctl.node.value;
      assert Owned(c, s.ctl, s.ahead)[0] == n;
      OwnedIsMine(c, s, n);
    }
  }

  lemma ControllerOwners(c: Config, s: State, a: Act)
    requires Orderly(c, s) && Owners(c, s) && Enabled(c, s, a) && ByController(a) && !a.PushFailsStored? && !s.fault
    ensures !Apply(c, s, a).fault && Owners(c, Apply(c, s, a)) && Apply(c, s, a).stored == s.stored
  {
    ControllerTouches(c, s, a);
    ControllerShares(c, s, a);
    assert AtQueue(s.ctl, s.q) && Sound(s.q);
    hide Orderly, Shared, Balanced, LiveOk, AtQueue, Sound, Enabled, Apply, HandedOut, ByController, BeforeSweep;
    QueueFits(s.q);
    ControllerEffect(c, s, a);
    SweptOne(c, s.live, s.released, s.swept, if a.SweepFree? then HandedOut(s, a) else []);
  }

  /** Changing one worker changes what is carried and what is being reduced by that worker's share. */
  lemma HandsChange(hands: seq<Worker>, i: nat, w: Worker)
    requires i < |hands|
    ensures SumBag(Carried(), hands[i := w]) == SumBag(Carried(), hands) - Carried()(hands[i]) + Carried()(w)
    ensures SumBag(Reducing(), hands[i := w]) == SumBag(Reducing(), hands) - Reducing()(hands[i]) + Reducing()(w)
    ensures Carried()(hands[i]) <= SumBag(Carried(), hands) && Reducing()(hands[i]) <= SumBag(Reducing(), hands)
  {
    SumBagUpdate(Carried(), hands, i, w);
    SumBagUpdate(Reducing(), hands, i, w);
  }

  lemma TakenAndPutBack(a: multiset<nat>, n: multiset<nat>)
    requires n <= a
    ensures a - n + n == a
    ensures n == multiset{} ==> a - n == a
  {
  }

  lemma Moved(total: multiset<nat>, carried: multiset<nat>, released: multiset<nat>, n: multiset<nat>)
    requires total == carried + released && n <= carried
    ensures total == (carried - n) + (released + n)
  {
  }

  lemma SnocBag(s: seq<nat>, n: nat)
    ensures multiset(s + [n]) == multiset(s) + multiset{n}
  {
  }

  lemma CreateHands(hands: seq<Worker>, i: nat)
    requires i < |hands| && hands[i].Unborn?
    ensures SumBag(Carried(), hands[i := Free]) == SumBag(Carried(), hands)
    ensures SumBag(Reducing(), hands[i := Free]) == SumBag(Reducing(), hands)
  {
    HandsChange(hands, i, Free);
    assert Carried()(hands[i]) == Reducing()(hands[i]) == multiset{};
    assert Carried()(Free) == Reducing()(Free) == multiset{};
    hide SumBag, Carried, Reducing;
  }

  lemma TakeHands(hands: seq<Worker>, i: nat, n: nat)
    requires i < |hands| && hands[i].Free?
    ensures SumBag(Carried(), hands[i := Has(n)]) == SumBag(Carried(), hands) + multiset{n}
    ensures SumBag(Reducing(), hands[i := Has(n)]) == SumBag(Reducing(), hands)
  {
    HandsChange(hands, i, Has(n));
    assert Carried()(hands[i]) == Reducing()(hands[i]) == Reducing()(Has(n)) == multiset{};
    assert Carried()(Has(n)) == multiset{n};
    hide SumBag, Carried, Reducing;
  }

  lemma ReduceHands(hands: seq<Worker>, i: nat, n: nat)
    requires i < |hands| && hands[i] == Has(n)
    ensures SumBag(Carried(), hands[i := Done(n)]) == SumBag(Carried(), hands)
    ensures SumBag(Reducing(), hands[i := Done(n)]) == SumBag(Reducing(), hands) + multiset{n}
  {
    HandsChange(hands, i, Done(n));
    assert Carried()(hands[i]) == Carried()(Done(n)) == Reducing()(Done(n)) == multiset{n};
    assert Reducing()(hands[i]) == multiset{};
    hide SumBag, Carried, Reducing;
    TakenAndPutBack(SumBag(Carried(), hands), multiset{n});
    TakenAndPutBack(SumBag(Reducing(), hands), multiset{});
  }

  lemma ReleaseHands(hands: seq<Worker>, i: nat, n: nat)
    requires i < |hands| && hands[i] == Done(n)
    ensures multiset{n} <= SumBag(Carried(), hands) && multiset{n} <= SumBag(Reducing(), hands)
    ensures SumBag(Carried(), hands[i := Free]) == SumBag(Carried(), hands) - multiset{n}
    ensures SumBag(Reducing(), hands[i := Free]) == SumBag(Reducing(), hands) - multiset{n}
  {
    HandsChange(hands, i, Free);
    assert Carried()(hands[i]) == Reducing()(hands[i]) == multiset{n};
    assert Carried()(Free) == Reducing()(Free) == multiset{};
    hide SumBag, Carried, Reducing;
  }

  lemma TakeBalanced(popped: seq<nat>, hands: seq<Worker>, reduced: seq<nat>, released: seq<nat>, i: nat, n: nat)
    requires Balanced(popped, hands, reduced, released) && i < |hands| && hands[i].Free?
    ensures Balanced(popped + [n], hands[i := Has(n)], reduced, released)
  {
    hide SumBag, Carried, Reducing;
    TakeHands(hands, i, n);
    SnocBag(popped, n);
  }

  lemma ReduceBalanced(popped: seq<nat>, hands: seq<Worker>, reduced: seq<nat>, released: seq<nat>, i: nat)
    requires Balanced(popped, hands, reduced, released) && i < |hands| && hands[i].Has?
    ensures Balanced(popped, hands[i := Done(hands[i].node)], reduced + [hands[i].node], released)
  {
    hide SumBag, Carried, Reducing;
    ReduceHands(hands, i, hands[i].node);
    SnocBag(reduced, hands[i].node);
  }

  lemma ReleaseBalanced(popped: seq<nat>, hands: seq<Worker>, reduced: seq<nat>, released: seq<nat>, i: nat)
    requires Balanced(popped, hands, reduced, released) && i < |hands| && hands[i].Done?
    ensures Balanced(popped, hands[i := Free], reduced, released + [hands[i].node])
  {
    hide SumBag, Carried, Reducing;
    var n := hands[i].node;
    ReleaseHands(hands, i, n);
    SnocBag(released, n);
    Moved(multiset(popped), SumBag(Carried(), hands), multiset(released), multiset{n});
    Moved(multiset(reduced), SumBag(Reducing(), hands), multiset(released), multiset{n});
  }

  lemma CreateOwners(c: Config, s: State)
    requires Orderly(c, s) && Owners(c, s) && Enabled(c, s, Create)
    ensures Owners(c, Apply(c, s, Create))
  {
    assert s.hands[s.ctl.created].Unborn?;
    assert Shared(c, Starting(s.ctl.created + 1), s.ahead, s.q.pushed, s.swept);
    hide Orderly, Shared, LiveOk, SumBag, Carried, Reducing;
    CreateHands(s.hands, s.ctl.created);
  }

  lemma PopOwners(c: Config, s: State, i: nat, sig: nat)
    requires Owners(c, s) && Enabled(c, s, Pop(i, sig))
    ensures Owners(c, Apply(c, s, Pop(i, sig))) && Apply(c, s, Pop(i, sig)).fault == s.fault
  {
    hide Shared, LiveOk, Balanced;
    if s.q.items != [] {
      TakeBalanced(s.q.popped, s.hands, s.reduced, s.released, i, s.q.items[|s.q.items| - 1]);
    }
  }

  lemma ReduceOwners(c: Config, s: State, i: nat)
    requires Orderly(c, s) && Owners(c, s) && Enabled(c, s, Reduce(i)) && !s.fault
    ensures Owners(c, Apply(c, s, Reduce(i))) && !Apply(c, s, Reduce(i)).fault
  {
    hide Orderly, Shared, LiveOk, Balanced, Carried, Reducing;
    CarriedIsLive(c, s, i);
    ReduceBalanced(s.q.popped, s.hands, s.reduced, s.released, i);
  }

  lemma ReleaseOwners(c: Config, s: State, i: nat)
    requires Orderly(c, s) && Owners(c, s) && Enabled(c, s, Release(i)) && !s.fault
    ensures Owners(c, Apply(c, s, Release(i))) && !Apply(c, s, Release(i)).fault
  {
    hide Orderly, Shared, LiveOk, Balanced, Carried, Reducing;
    CarriedIsLive(c, s, i);
    ReleaseBalanced(s.q.popped, s.hands, s.reduced, s.released, i);
    ReleasedOne(c, s.live, s.released, s.swept, s.hands[i].node);
  }

  lemma WakeOwners(c: Config, s: State, a: Act)
    requires Owners(c, s) && Enabled(c, s, a) && Spurious(a)
    ensures Owners(c, Apply(c, s, a)) && Apply(c, s, a).fault == s.fault
  {
    hide Shared, LiveOk, Balanced;
  }

  lemma StepOwners(c: Config, s: State, a: Act)
    requires Orderly(c, s) && Owners(c, s) && Enabled(c, s, a) && !a.PushFailsStored? && !s.fault
    ensures Owners(c, Apply(c, s, a)) && !Apply(c, s, a).fault
  {
    hide Orderly, Owners, Enabled;
    match a
    case Create => CreateOwners(c, s);
    case Pop(i, sig) => PopOwners(c, s, i, sig);
    case Reduce(i) => ReduceOwners(c, s, i);
    case Release(i) => ReleaseOwners(c, s, i);
    case WakeController => WakeOwners(c, s, a);
    case WakeWorker(_) => WakeOwners(c, s, a);
    case _ => ControllerOwners(c, s, a);
  }

  // ---------------------------------------------------------------- after a push that failed but stored

  lemma StepDoomed(c: Config, s: State, a: Act)
    requires Orderly(c, s) && Enabled(c, s, a) && (a.PushFailsStored? || Doomed(s))
    ensures Doomed(Apply(c, s, a))
  {
    hide ValidConfig, Placed, Sound, M.Inv, Crewed, Staffed, Dismissed, Head, ChainAt, Next, Tail, AllDone;
  }

  lemma StoredIff(c: Config, s: State, a: Act)
    requires Enabled(c, s, a)
    ensures Apply(c, s, a).stored == (s.stored || a.PushFailsStored?)
  {
    hide M.Apply, M.Store, Mine, Head, ChainAt, Next, Tail, AllDone;
  }

  /** Every step of controller and workers keeps the invariant, whatever fails. */
  lemma StepInv(c: Config, s: State, a: Act)
    requires Inv(c, s) && Enabled(c, s, a)
    ensures Inv(c, Apply(c, s, a))
  {
    hide Orderly, Owners, Doomed, Enabled, Apply;
    StepOrderly(c, s, a);
    StoredIff(c, s, a);
    if s.stored || a.PushFailsStored? {
      StepDoomed(c, s, a);
    } else {
      StepOwners(c, s, a);
    }
  }

  // ---------------------------------------------------------------- what is left open

  /** Every failure may happen wherever the code can fail, and every choice is open: which worker goes on, who is woken
      by a signal, and whether a sleeper wakes without one. */
  lemma AnythingMayHappen(c: Config, s: State, i: nat, sig: nat)
    requires Orderly(c, s)
    ensures s.ctl == Starting(0) ==> Enabled(c, s, GiveUp)
    ensures s.ctl.Starting? && s.ctl.created < c.workers ==> Enabled(c, s, Create) && Enabled(c, s, CreateFails)
    ensures s.ctl.Saved? && s.q.prods[0] != M.Ready ==> Enabled(c, s, PushFails)
    ensures s.ctl.Saved? && (s.q.prods[0] == M.Entering || s.q.prods[0] == M.Awake) ==>
              && (|s.q.items| < s.q.cap ==> Enabled(c, s, PushFailsStored(sig)))
              && (M.Asleep !in s.q.cons || (sig < |s.q.cons| && s.q.cons[sig] == M.Asleep) ==>
                    Enabled(c, s, Push(sig)))
    ensures i < |s.hands| && s.hands[i].Free? && (s.q.cons[i] == M.Ready || s.q.cons[i] == M.Awake) ==>
              (M.Asleep !in s.q.prods || (sig < |s.q.prods| && s.q.prods[sig] == M.Asleep) ==>
                 Enabled(c, s, Pop(i, sig)))
    ensures i < |s.hands| && s.hands[i].Has? ==> Enabled(c, s, Reduce(i))
    ensures i < |s.hands| && s.hands[i].Done? ==> Enabled(c, s, Release(i))
    ensures i < |s.q.cons| && s.q.cons[i] == M.Asleep ==> Enabled(c, s, WakeWorker(i))
    ensures s.q.prods[0] == M.Asleep ==> Enabled(c, s, WakeController)
  {
    hide ValidConfig, Dismissed, M.Inv, Sound, IsList;
  }

  // ---------------------------------------------------------------- runs

  ghost predicate StoresAndFails(acts: seq<Act>)
  {
    exists i :: 0 <= i < |acts| && acts[i].PushFailsStored?
  }

  lemma {:induction false} ScheduleInv(c: Config, s: State, acts: seq<Act>)
    requires Inv(c, s) && Schedule(c, s, acts)
    ensures Inv(c, After(c, s, acts)) && After(c, s, acts).stored == (s.stored || StoresAndFails(acts))
    decreases |acts|
  {
    hide Inv, Enabled, Apply;
    if acts != [] {
      StepInv(c, s, acts[0]);
      StoredIff(c, s, acts[0]);
      ScheduleInv(c, Apply(c, s, acts[0]), acts[1..]);
      if StoresAndFails(acts[1..]) {
        var i :| 0 <= i < |acts[1..]| && acts[1..][i].PushFailsStored?;
        assert acts[i + 1].PushFailsStored?;
      }
      if StoresAndFails(acts) && !acts[0].PushFailsStored? {
        var i :| 0 <= i < |acts| && acts[i].PushFailsStored?;
        assert acts[1..][i - 1].PushFailsStored?;
      }
    }
  }

  /** No schedule makes anybody touch a freed node, or the controller touch a node it has pushed, as long as no push
      fails after storing its element. */
  lemma NobodyTouchesFreedNodes(c: Config, s0: State, acts: seq<Act>)
    requires Initial(c, s0) && Schedule(c, s0, acts) && !StoresAndFails(acts)
    ensures !After(c, s0, acts).fault
  {
    InitialInv(c, s0);
    ScheduleInv(c, s0, acts);
    hide Orderly, Owners, Schedule, After;
  }

  /** What sets the fault flag: a worker's access to a node that has been freed, and the controller's to one that has
      been freed or pushed; nothing else does. */
  lemma FaultMeans(c: Config, s: State, a: Act)
    requires Enabled(c, s, a)
    ensures a.Reduce? || a.Release? ==> (Apply(c, s, a).fault <==> s.fault || s.hands[a.i].node !in s.live)
    ensures a.SaveNext? || a.SweepSave? || a.SweepFree? ==>
              var n := s.ctl.node.value;
              Apply(c, s, a).fault <==> s.fault || n !in s.live || n in s.q.pushed
    ensures !a.Reduce? && !a.Release? && !a.SaveNext? && !a.SweepSave? && !a.SweepFree? ==>
              Apply(c, s, a).fault == s.fault
  {
    hide M.Apply, M.Store, Retreat, Head, ChainAt, Next, Tail, AllDone;
  }

  /** The same said of the nodes themselves: whoever is about to read or free a node finds it allocated, and the
      controller finds it not pushed. */
  lemma EveryTouchIsLegal(c: Config, s0: State, acts: seq<Act>)
    requires Initial(c, s0) && Schedule(c, s0, acts) && !StoresAndFails(acts)
    ensures var s := After(c, s0, acts);
            && (s.ctl.Walking? && s.ctl.node.Some? ==> s.ctl.node.value in s.live && s.ctl.node.value !in s.q.pushed)
            && (s.ctl.Sweeping? && s.ctl.node.Some? ==> s.ctl.node.value in s.live && s.ctl.node.value !in s.q.pushed)
            && (s.ctl.Freeing? && s.ctl.node.Some? ==> s.ctl.node.value in s.live && s.ctl.node.value !in s.q.pushed)
            && forall i :: 0 <= i < |s.hands| && (s.hands[i].Has? || s.hands[i].Done?) ==> s.hands[i].node in s.live
  {
    InitialInv(c, s0);
    ScheduleInv(c, s0, acts);
    var s := After(c, s0, acts);
    hide Initial, Schedule, After, Owners;
    assert Orderly(c, s) && Owners(c, s);
    if (s.ctl.Walking? || s.ctl.Sweeping? || s.ctl.Freeing?) && s.ctl.node.Some? {
      InFront(c, s.ctl, s.ahead);
      OwnedIsMine(c, s, s.ctl.node.value);
    }
    hide Orderly;
    forall i | 0 <= i < |s.hands| && (s.hands[i].Has? || s.hands[i].Done?) ensures s.hands[i].node in s.live {
      CarriedIsLive(c, s, i);
    }
  }

  lemma InFront(c: Config, ctl: Ctl, ahead: seq<nat>)
    requires Placed(c, ctl, ahead) && (ctl.Walking? || ctl.Sweeping? || ctl.Freeing?) && ctl.node.Some?
    ensures ctl.node.value in Owned(c, ctl, ahead)
  {
    hide FlatFrom;
    if !ctl.Freeing? {
      assert ahead[0] == ctl.node.value;
    }
  }

  /** The proviso is exact: of the runs that have exited, the faulty ones are those with such a push. */
  lemma FaultyIffPushStoredAndFailed(c: Config, s0: State, acts: seq<Act>)
    requires Initial(c, s0) && Schedule(c, s0, acts) && After(c, s0, acts).ctl.Exit?
    ensures After(c, s0, acts).fault <==> StoresAndFails(acts)
  {
    InitialInv(c, s0);
    ScheduleInv(c, s0, acts);
    hide Orderly, Owners, Schedule, After, StoresAndFails;
  }

  lemma {:induction false} NobodyCarries(hands: seq<Worker>)
    requires forall i :: 0 <= i < |hands| ==> hands[i].Unborn? || hands[i].Free?
    ensures SumBag(Carried(), hands) == multiset{} && SumBag(Reducing(), hands) == multiset{}
  {
    SumBagAllEmpty(Carried(), hands);
    SumBagAllEmpty(Reducing(), hands);
  }

  lemma NothingLeft(pushed: seq<nat>, swept: seq<nat>, released: seq<nat>, n: nat)
    requires multiset(released) == multiset(pushed)
    ensures n in pushed + swept ==> n in released || n in swept
  {
    InBag(pushed, n);
    InBag(released, n);
  }

  lemma ExitedIsEmpty(c: Config, s: State)
    requires Orderly(c, s) && s.ctl.Exit?
    ensures s.q.items == [] && forall i :: 0 <= i < |s.hands| ==> s.hands[i].Unborn? || s.hands[i].Free?
    ensures multiset(s.q.pushed) == multiset(s.q.popped)
  {
    hide ValidConfig, Placed, AtQueue, M.Inv, Staffed;
    assert multiset(s.q.items) == multiset{};
  }

  lemma ExitedIsFreed(c: Config, s: State)
    requires Orderly(c, s) && Owners(c, s) && s.ctl.Exit?
    ensures s.q.pushed + s.swept == All(c) && multiset(s.reduced) == multiset(s.released) == multiset(s.q.pushed)
    ensures s.live == {} && (s.ctl.ok ==> s.swept == [])
  {
    ExitedIsEmpty(c, s);
    NobodyCarries(s.hands);
    hide Orderly, All, FlatFrom, SumBag, Carried, Reducing;
    assert s.swept + [] == s.swept;
    forall n ensures n !in s.live {
      NothingLeft(s.q.pushed, s.swept, s.released, n);
    }
  }

  /** At either exit every node has been freed exactly once, and exactly the pushed ones were reduced, each once; at
      the successful exit all were pushed, in the order of the walk, and the workers freed them all. */
  lemma EachNodeFreedOnce(c: Config, s0: State, acts: seq<Act>)
    requires Initial(c, s0) && Schedule(c, s0, acts) && !StoresAndFails(acts) && After(c, s0, acts).ctl.Exit?
    ensures var s := After(c, s0, acts);
            && s.live == {} && multiset(s.released) + multiset(s.swept) == multiset(All(c))
            && s.q.pushed + s.swept == All(c) && multiset(s.reduced) == multiset(s.released) == multiset(s.q.pushed)
            && (s.ctl.ok ==> s.q.pushed == All(c) && s.swept == [])
  {
    InitialInv(c, s0);
    ScheduleInv(c, s0, acts);
    hide Initial, Schedule, After, Orderly, Owners, All;
    var s := After(c, s0, acts);
    ExitedIsFreed(c, s);
    assert multiset(s.q.pushed + s.swept) == multiset(s.q.pushed) + multiset(s.swept);
  }
}
