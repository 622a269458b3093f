/** Who owns the token nodes (src/reducer.c:89-103, 181-205, 250-371): the controller walks the chains and pushes node
    after node while the workers reduce and free what was pushed; on its failing exits it frees the rest itself. Every
    access to a node is checked against the set of nodes not yet freed. The queue is the monitor, so workers and
    controller sleep, are woken and may miss wakeups as they do in src/queue.c. */
module Handoff {
  import opened Collections
  import M = Monitor

  /** The table when collection ends or breaks off: the bucket heads, the next fields, and which nodes they link. */
  datatype Config = Config(
    head: seq<Option<nat>>, next: map<nat, Option<nat>>, chains: seq<seq<nat>>, workers: nat, capacity: nat)

  /** A null-terminated list. */
  ghost predicate IsList(next: map<nat, Option<nat>>, node: Option<nat>, ids: seq<nat>)
    decreases |ids|
  {
    if ids == [] then node == None
    else node == Some(ids[0]) && ids[0] in next && IsList(next, next[ids[0]], ids[1..])
  }

  /** All nodes, in the order in which the loops visit them. */
  ghost function All(c: Config): seq<nat> { FlatFrom(c.chains, 0) }

  ghost predicate Distinct(s: seq<nat>)
  {
    forall i, j :: 0 <= i < j < |s| ==> s[i] != s[j]
  }

  ghost predicate ValidConfig(c: Config)
  {
    && |c.chains| == |c.head| > 0 && c.workers > 0 && c.capacity > 0 && Distinct(All(c))
    && forall b :: 0 <= b < |c.head| ==> IsList(c.next, c.head[b], c.chains[b])
  }

  /** Where the controller stands; `b` is the bucket, `node` and `next` its two pointers. In Saved it is about to push
      `node` or inside that push. Abandoning and Waiting are the close and the joins of a failing exit, after which
      `node`, when there is one, is still to be freed. */
  datatype Ctl =
    | Starting(created: nat)
    | Walking(b: nat, node: Option<nat>)
    | Saved(b: nat, node: Option<nat>, next: Option<nat>)
    | Abandoning(b: nat, node: Option<nat>, next: Option<nat>)
    | Waiting(b: nat, node: Option<nat>, next: Option<nat>)
    | Sweeping(b: nat, node: Option<nat>)
    | Freeing(b: nat, node: Option<nat>, next: Option<nat>)
    | Closing
    | Joining
    | Exit(ok: bool)

  /** A worker without a node is Free, and then inside mr_queue_pop or gone, as the queue knows. */
  datatype Worker = Unborn | Free | Has(node: nat) | Done(node: nat)

  /** `ahead` is the rest of the current chain; `reduced`, `released` and `swept` record what was given to the user
      reducer, freed by the workers and freed by the controller; the queue records what was pushed and popped. `fault`
      is set by an access to a node that has been freed, and by the controller's access to a node it has pushed;
      `stored` by a failing push that had already stored its element. */
  datatype State = State(
    ctl: Ctl, ahead: seq<nat>, q: M.Queue<nat>, hands: seq<Worker>, live: set<nat>,
    reduced: seq<nat>, released: seq<nat>, swept: seq<nat>, fault: bool, stored: bool)

  /** GiveUp stands for the exits before the first thread: a broken collection, or a queue, mutex or array that cannot
      be had. PushFails is a push that returns -1 from mtx_lock or cnd_wait; PushFailsStored one that does so from
      cnd_signal or mtx_unlock, when the element is in the buffer and `sig` names who was woken, if anybody. */
  datatype Act =
    | GiveUp | Create | CreateFails | Begin
    | NextBucket | SaveNext | Enter | Push(sig: nat) | PushFails | PushFailsStored(sig: nat)
    | CloseFailed | JoinFailed | SweepBucket | SweepSave | SweepFree
    | Close | Join
    | Pop(i: nat, sig: nat) | Reduce(i: nat) | Release(i: nat)
    | WakeController | WakeWorker(i: nat)

  predicate AllDone(hands: seq<Worker>, cons: seq<M.Thread>)
  {
    |hands| == |cons| && forall i :: 0 <= i < |hands| ==> hands[i].Unborn? || cons[i] == M.Gone
  }

  predicate InCriticalSection(q: M.Queue<nat>)
  {
    |q.prods| == 1 && (q.prods[0] == M.Entering || q.prods[0] == M.Awake) && 0 in q.hand
  }

  ghost predicate Enabled(c: Config, s: State, a: Act)
  {
    match a
    case GiveUp => s.ctl == Starting(0)
    case Create => s.ctl.Starting? && s.ctl.created < |s.hands|
    case CreateFails => s.ctl.Starting? && s.ctl.created < |s.hands|
    case Begin => s.ctl.Starting? && s.ctl.created == |s.hands|
    case NextBucket => s.ctl.Walking? && s.ctl.node.None?
    case SaveNext => s.ctl.Walking? && s.ctl.node.Some?
    case Enter => s.ctl.Saved? && s.ctl.node.Some? && M.Enabled(s.q, M.Enter(0, s.ctl.node.value))
    case Push(sig) => s.ctl.Saved? && s.ctl.node.Some? && M.Enabled(s.q, M.Push(0, sig))
    case PushFails => s.ctl.Saved? && s.ctl.node.Some? && |s.q.prods| == 1 && s.q.prods[0] != M.Ready
    case PushFailsStored(_) => s.ctl.Saved? && s.ctl.node.Some? && InCriticalSection(s.q) && |s.q.items| < s.q.cap
    case CloseFailed => s.ctl.Abandoning?
    case JoinFailed => s.ctl.Waiting? && AllDone(s.hands, s.q.cons)
    case SweepBucket => s.ctl.Sweeping? && s.ctl.node.None?
    case SweepSave => s.ctl.Sweeping? && s.ctl.node.Some?
    case SweepFree => s.ctl.Freeing? && s.ctl.node.Some?
    case Close => s.ctl.Closing?
    case Join => s.ctl.Joining? && AllDone(s.hands, s.q.cons)
    case Pop(i, sig) => i < |s.hands| && s.hands[i].Free? && M.Enabled(s.q, M.Pop(i, sig))
    case Reduce(i) => i < |s.hands| && s.hands[i].Has?
    case Release(i) => i < |s.hands| && s.hands[i].Done?
    case WakeController => M.Enabled(s.q, M.WakeProducer(0))
    case WakeWorker(i) => M.Enabled(s.q, M.WakeConsumer(i))
  }

  function Head(c: Config, b: nat): Option<nat> { if b < |c.head| then c.head[b] else None }

  function ChainAt(c: Config, b: nat): seq<nat> { if b < |c.chains| then c.chains[b] else [] }

  /** Reading a next field. */
  function Next(c: Config, n: nat): Option<nat> { if n in c.next then c.next[n] else None }

  function Tail(s: seq<nat>): seq<nat> { if s == [] then [] else s[1..] }

  /** The controller may touch a node it has not freed and not pushed; a worker one that has not been freed. */
  predicate Mine(s: State, n: nat) { n in s.live && n !in s.q.pushed }

  /** A push that returns -1 before it has stored anything. */
  function Retreat(q: M.Queue<nat>): M.Queue<nat>
    requires |q.prods| == 1
  {
    q.(prods := [M.Ready], hand := q.hand - {0})
  }

  ghost function Apply(c: Config, s: State, a: Act): State
    requires Enabled(c, s, a)
  {
    match a
    case GiveUp => s.(ctl := Sweeping(0, Head(c, 0)), ahead := ChainAt(c, 0))
    case Create => s.(ctl := Starting(s.ctl.created + 1), hands := s.hands[s.ctl.created := Free])
    case CreateFails => s.(ctl := Abandoning(0, None, Head(c, 0)), ahead := ChainAt(c, 0))
    case Begin => s.(ctl := Walking(0, Head(c, 0)), ahead := ChainAt(c, 0))
    case NextBucket =>
      var b := s.ctl.b + 1;
      s.(ctl := if b < |c.head| then Walking(b, Head(c, b)) else Closing, ahead := ChainAt(c, b))
    case SaveNext =>
      var n := s.ctl.node.value;
      s.(ctl := Saved(s.ctl.b, s.ctl.node, Next(c, n)), ahead := Tail(s.ahead), fault := s.fault || !Mine(s, n))
    case Enter => s.(q := M.Apply(s.q, M.Enter(0, s.ctl.node.value)))
    case Push(sig) =>
      s.(ctl := if |s.q.items| < s.q.cap then Walking(s.ctl.b, s.ctl.next) else s.ctl,
         q := M.Apply(s.q, M.Push(0, sig)))
    case PushFails => s.(ctl := Abandoning(s.ctl.b, s.ctl.node, s.ctl.next), q := Retreat(s.q))
    case PushFailsStored(sig) =>
      s.(ctl := Abandoning(s.ctl.b, s.ctl.node, s.ctl.next), q := M.Store(s.q, 0, s.q.hand[0], sig), stored := true)
    case CloseFailed => s.(ctl := Waiting(s.ctl.b, s.ctl.node, s.ctl.next), q := M.Apply(s.q, M.Close))
    case JoinFailed =>
      s.(ctl := if s.ctl.node.Some? then Freeing(s.ctl.b, s.ctl.node, s.ctl.next) else Sweeping(s.ctl.b, s.ctl.next))
    case SweepBucket =>
      var b := s.ctl.b + 1;
      s.(ctl := if b < |c.head| then Sweeping(b, Head(c, b)) else Exit(false), ahead := ChainAt(c, b))
    case SweepSave =>
      var n := s.ctl.node.value;
      s.(ctl := Freeing(s.ctl.b, s.ctl.node, Next(c, n)), ahead := Tail(s.ahead), fault := s.fault || !Mine(s, n))
    case SweepFree =>
      var n := s.ctl.node.value;
      s.(ctl := Sweeping(s.ctl.b, s.ctl.next), live := s.live - {n}, swept := s.swept + [n],
         fault := s.fault || !Mine(s, n))
    case Close => s.(ctl := Joining, q := M.Apply(s.q, M.Close))
    case Join => s.(ctl := Exit(true))
    case Pop(i, sig) =>
      var q := M.Apply(s.q, M.Pop(i, sig));
      if s.q.items == [] then s.(q := q)
      else s.(q := q, hands := s.hands[i := Has(s.q.items[|s.q.items| - 1])])
    case Reduce(i) =>
      var n := s.hands[i].node;
      s.(hands := s.hands[i := Done(n)], reduced := s.reduced + [n], fault := s.fault || n !in s.live)
    case Release(i) =>
      var n := s.hands[i].node;
      s.(hands := s.hands[i := Free], live := s.live - {n}, released := s.released + [n],
         fault := s.fault || n !in s.live)
    case WakeController => s.(q := M.Apply(s.q, M.WakeProducer(0)))
    case WakeWorker(i) => s.(q := M.Apply(s.q, M.WakeConsumer(i)))
  }

  predicate Spurious(a: Act) { a.WakeController? || a.WakeWorker? }

  /** The table is built, all its nodes are allocated, nothing has been pushed. */
  ghost predicate Initial(c: Config, s: State)
  {
    && ValidConfig(c) && s.ctl == Starting(0) && s.ahead == []
    && M.Initial(s.q) && |s.q.prods| == 1 && |s.q.cons| == |s.hands| == c.workers && s.q.cap == c.capacity
    && (forall i :: 0 <= i < |s.hands| ==> s.hands[i].Unborn?)
    && s.live == (set n | n in All(c)) && s.reduced == [] && s.released == [] && s.swept == []
    && !s.fault && !s.stored
  }

  // ---------------------------------------------------------------- runs

  ghost predicate Schedule(c: Config, s: State, acts: seq<Act>)
    decreases |acts|
  {
    acts == [] || (Enabled(c, s, acts[0]) && Schedule(c, Apply(c, s, acts[0]), acts[1..]))
  }

  ghost function After(c: Config, s: State, acts: seq<Act>): State
    requires Schedule(c, s, acts)
    decreases |acts|
  {
    if acts == [] then s else After(c, Apply(c, s, acts[0]), acts[1..])
  }

  // ---------------------------------------------------------------- what every run keeps

  ghost function OneOf(n: Option<nat>): seq<nat> { if n.Some? then [n.value] else [] }

  /** The nodes the controller still has to push or to free, in order. */
  ghost function Owned(c: Config, ctl: Ctl, ahead: seq<nat>): seq<nat>
  {
    match ctl
    case Starting(_) => All(c)
    case Walking(b, _) => ahead + FlatFrom(c.chains, b + 1)
    case Sweeping(b, _) => ahead + FlatFrom(c.chains, b + 1)
    case Saved(b, node, _) => OneOf(node) + (ahead + FlatFrom(c.chains, b + 1))
    case Abandoning(b, node, _) => OneOf(node) + (ahead + FlatFrom(c.chains, b + 1))
    case Waiting(b, node, _) => OneOf(node) + (ahead + FlatFrom(c.chains, b + 1))
    case Freeing(b, node, _) => OneOf(node) + (ahead + FlatFrom(c.chains, b + 1))
    case _ => []
  }

  /** The controller's pointers are where its loops think they are. */
  ghost predicate Placed(c: Config, ctl: Ctl, ahead: seq<nat>)
  {
    match ctl
    case Walking(b, node) => b < |c.head| && IsList(c.next, node, ahead)
    case Sweeping(b, node) => b < |c.head| && IsList(c.next, node, ahead)
    case Saved(b, node, next) => b < |c.head| && node.Some? && IsList(c.next, next, ahead)
    case Abandoning(b, _, next) => b < |c.head| && IsList(c.next, next, ahead)
    case Waiting(b, _, next) => b < |c.head| && IsList(c.next, next, ahead)
    case Freeing(b, node, next) => b < |c.head| && node.Some? && IsList(c.next, next, ahead)
    case _ => true
  }

  /** The controller is inside a push only of the node it has saved. */
  ghost predicate AtQueue(ctl: Ctl, q: M.Queue<nat>)
  {
    && |q.prods| == 1 && q.prods[0] != M.Gone
    && if q.prods[0] == M.Ready then q.hand == map[]
       else ctl.Saved? && ctl.node.Some? && q.hand == map[0 := ctl.node.value]
  }

  /** What is left of the monitor's invariant when a push has failed to signal: a sleeper may have missed its wakeup,
      but not the close. */
  ghost predicate Sound(q: M.Queue<nat>)
  {
    && 0 < q.cap && |q.items| <= q.cap && multiset(q.pushed) == multiset(q.popped) + multiset(q.items)
    && (forall i :: 0 <= i < |q.cons| ==> q.cons[i] != M.Entering && (q.cons[i] == M.Asleep ==> !q.closed))
  }

  /** A worker with a node, and one not yet created, is outside the queue. */
  ghost predicate Crewed(hands: seq<Worker>, cons: seq<M.Thread>)
  {
    |hands| == |cons| && forall i :: 0 <= i < |hands| && !hands[i].Free? ==> cons[i] == M.Ready
  }

  /** Which workers there are: the first `created`, or all of them; without all of them nothing is pushed. */
  ghost predicate Staffed(ctl: Ctl, hands: seq<Worker>, pushed: seq<nat>)
  {
    && (ctl.Starting? ==> ctl.created <= |hands|)
    && (ctl.Starting? ==> forall i :: 0 <= i < |hands| ==> (hands[i].Unborn? <==> i >= ctl.created))
    && (ctl.Walking? || ctl.Saved? ==> forall i :: 0 <= i < |hands| ==> !hands[i].Unborn?)
    && (forall i :: 0 <= i < |hands| && hands[i].Unborn? ==> pushed == [])
    && (ctl.Starting? ==> pushed == [])
  }

  predicate MayBeClosed(ctl: Ctl) { ctl.Waiting? || ctl.Sweeping? || ctl.Freeing? || ctl.Joining? || ctl.Exit? }

  predicate Over(ctl: Ctl) { ctl.Sweeping? || ctl.Freeing? || ctl.Exit? }

  /** When workers have gone, and when all have. */
  ghost predicate Dismissed(ctl: Ctl, hands: seq<Worker>, q: M.Queue<nat>)
  {
    && (forall i :: 0 <= i < |q.cons| && q.cons[i] == M.Gone ==> q.closed && q.items == [])
    && (q.closed ==> MayBeClosed(ctl)) && (ctl.Waiting? || ctl.Joining? ==> q.closed)
    && (Over(ctl) ==> AllDone(hands, q.cons) && q.items == [])
  }

  /** On the way out after a failure. */
  predicate Leaving(ctl: Ctl)
  {
    ctl.Abandoning? || ctl.Waiting? || ctl.Sweeping? || ctl.Freeing? || ctl == Exit(false)
  }

  /** Holds in every run whatever fails: where everybody stands. */
  ghost predicate Orderly(c: Config, s: State)
  {
    && ValidConfig(c) && |s.hands| == c.workers && s.q.cap == c.capacity
    && Placed(c, s.ctl, s.ahead) && AtQueue(s.ctl, s.q)
    && Sound(s.q) && (if s.stored then Leaving(s.ctl) else M.Inv(s.q))
    && Crewed(s.hands, s.q.cons) && Staffed(s.ctl, s.hands, s.q.pushed) && Dismissed(s.ctl, s.hands, s.q)
  }

  predicate BeforeSweep(ctl: Ctl) { !ctl.Sweeping? && !ctl.Freeing? && ctl != Exit(false) }

  /** Every node has been pushed, swept or is still the controller's; in the order of the walk. */
  ghost predicate Shared(c: Config, ctl: Ctl, ahead: seq<nat>, pushed: seq<nat>, swept: seq<nat>)
  {
    pushed + (swept + Owned(c, ctl, ahead)) == All(c) && (BeforeSweep(ctl) ==> swept == [])
  }

  ghost function Carried(): Worker -> multiset<nat>
  {
    (w: Worker) => if w.Has? || w.Done? then multiset{w.node} else multiset{}
  }

  ghost function Reducing(): Worker -> multiset<nat>
  {
    (w: Worker) => if w.Done? then multiset{w.node} else multiset{}
  }

  /** Every popped node is in one hand, or released; and reduced exactly before it is released. */
  ghost predicate Balanced(popped: seq<nat>, hands: seq<Worker>, reduced: seq<nat>, released: seq<nat>)
  {
    && multiset(popped) == SumBag(Carried(), hands) + multiset(released)
    && multiset(reduced) == SumBag(Reducing(), hands) + multiset(released)
  }

  ghost predicate LiveOk(c: Config, live: set<nat>, released: seq<nat>, swept: seq<nat>)
  {
    forall n :: n in live <==> n in All(c) && n !in released && n !in swept
  }

  /** Each node has one owner, and what an owner has is still allocated. */
  ghost predicate Owners(c: Config, s: State)
  {
    && Shared(c, s.ctl, s.ahead, s.q.pushed, s.swept) && Balanced(s.q.popped, s.hands, s.reduced, s.released)
    && LiveOk(c, s.live, s.released, s.swept)
  }

  /** After a push that failed but stored: a pushed node is still in the controller's hands, or has already been
      touched again. */
  ghost predicate Doomed(s: State)
  {
    || s.fault
    || ((s.ctl.Abandoning? || s.ctl.Waiting? || s.ctl.Freeing?) && s.ctl.node.Some? && s.ctl.node.value in s.q.pushed)
  }

  ghost predicate Inv(c: Config, s: State)
  {
    Orderly(c, s) && if s.stored then Doomed(s) else !s.fault && Owners(c, s)
  }

  lemma InitialOrderly(c: Config, s: State)
    requires Initial(c, s)
    ensures Orderly(c, s)
  {
    hide IsList, FlatFrom, Distinct;
    M.InitialInv(s.q);
  }

  lemma InitialInv(c: Config, s: State)
    requires Initial(c, s)
    ensures Inv(c, s)
  {
    InitialOrderly(c, s);
    SumBagAllEmpty(Carried(), s.hands);
    SumBagAllEmpty(Reducing(), s.hands);
    hide IsList, FlatFrom, SumBag, Orderly, ValidConfig;
    assert [] + ([] + All(c)) == All(c);
  }
}
