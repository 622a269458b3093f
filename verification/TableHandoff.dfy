/** The table that the collection phase leaves on the heap is a table as Handoff takes it over: numbering the nodes in
    the order of the walk turns its buckets and next pointers into well-formed lists. */
module TableHandoff {
  import opened Collections
  import opened Wire
  import opened Grouping
  import opened HashTable
  import H = Handoff

  /** Where in a sequence something stands first. */
  ghost function IndexOf<T>(s: seq<T>, x: T): (k: nat)
    requires x in s
    ensures k < |s| && s[k] == x
  {
    if s[0] == x then 0 else 1 + IndexOf(s[1..], x)
  }

  /** The number of a node, or none for the null pointer. */
  ghost function IdOf(order: seq<Node>, n: Node?): Option<nat>
  {
    if n != null && n in order then Some(IndexOf(order, n)) else None
  }

  ghost predicate Unique<T>(s: seq<T>)
  {
    forall i, j :: 0 <= i < j < |s| ==> s[i] != s[j]
  }

  /** from, from + 1, ..., n of them. */
  ghost function Numbers(from: nat, n: nat): (s: seq<nat>)
    ensures |s| == n
    decreases n
  {
    if n == 0 then [] else [from] + Numbers(from + 1, n - 1)
  }

  lemma {:induction false} NumbersJoin(from: nat, n: nat, m: nat)
    ensures Numbers(from, n) + Numbers(from + n, m) == Numbers(from, n + m)
    decreases n
  {
    if n == 0 {
      assert [] + Numbers(from, m) == Numbers(from, m);
    } else {
      NumbersJoin(from + 1, n - 1, m);
      Assoc([from], Numbers(from + 1, n - 1), Numbers(from + n, m));
    }
  }

  lemma {:induction false} NumbersAt(from: nat, n: nat, i: nat)
    requires i < n
    ensures Numbers(from, n)[i] == from + i
    decreases n
  {
    if i > 0 {
      NumbersAt(from + 1, n - 1, i - 1);
    }
  }

  lemma NumbersDistinct(n: nat)
    ensures H.Distinct(Numbers(0, n))
  {
    forall i, j | 0 <= i < j < n ensures Numbers(0, n)[i] != Numbers(0, n)[j] {
      NumbersAt(0, n, i);
      NumbersAt(0, n, j);
    }
  }

  /** The number of the first node of bucket b. */
  ghost function Offset<T>(chains: seq<seq<T>>, b: nat): nat
    requires b <= |chains|
    decreases b
  {
    if b == 0 then 0 else Offset(chains, b - 1) + |chains[b - 1]|
  }

  ghost function Ids<T>(chains: seq<seq<T>>): (ids: seq<seq<nat>>)
    ensures |ids| == |chains|
  {
    seq(|chains|, b requires 0 <= b < |chains| => Numbers(Offset(chains, b), |chains[b]|))
  }

  lemma FromStep<T>(chains: seq<seq<T>>, b: nat)
    requires b < |chains|
    ensures |FlatFrom(chains, b)| == |chains[b]| + |FlatFrom(chains, b + 1)|
  {
  }

  lemma IdsStep<T>(chains: seq<seq<T>>, b: nat)
    requires b < |chains|
    ensures FlatFrom(Ids(chains), b) == Numbers(Offset(chains, b), |chains[b]|) + FlatFrom(Ids(chains), b + 1)
    ensures Offset(chains, b + 1) == Offset(chains, b) + |chains[b]|
  {
  }

  lemma IdsEnd<T>(chains: seq<seq<T>>)
    ensures |FlatFrom(chains, |chains|)| == 0 && FlatFrom(Ids(chains), |chains|) == []
    ensures Numbers(Offset(chains, |chains|), 0) == []
  {
  }

  lemma {:induction false} IdsCountUp<T>(chains: seq<seq<T>>, b: nat)
    requires b <= |chains|
    ensures FlatFrom(Ids(chains), b) == Numbers(Offset(chains, b), |FlatFrom(chains, b)|)
    decreases |chains| - b
  {
    hide FlatFrom, Ids, Offset, Numbers;
    if b == |chains| {
      IdsEnd(chains);
    } else {
      IdsCountUp(chains, b + 1);
      FromStep(chains, b);
      IdsStep(chains, b);
      NumbersJoin(Offset(chains, b), |chains[b]|, |FlatFrom(chains, b + 1)|);
    }
  }

  lemma {:induction false} FromStarts<T>(chains: seq<seq<T>>, b: nat)
    requires b <= |chains|
    ensures Offset(chains, b) <= |FlatFrom(chains, 0)|
    ensures FlatFrom(chains, 0)[Offset(chains, b)..] == FlatFrom(chains, b)
    decreases b
  {
    if b > 0 {
      FromStarts(chains, b - 1);
      assert FlatFrom(chains, b - 1) == chains[b - 1] + FlatFrom(chains, b);
    }
  }

  /** The nodes of bucket b have the numbers from its offset on. */
  lemma PlaceOf<T>(chains: seq<seq<T>>, b: nat)
    requires b < |chains|
    ensures var off := Offset(chains, b);
            off + |chains[b]| <= |FlatFrom(chains, 0)| && FlatFrom(chains, 0)[off..off + |chains[b]|] == chains[b]
  {
    FromStarts(chains, b);
    var off := Offset(chains, b);
    assert FlatFrom(chains, b) == chains[b] + FlatFrom(chains, b + 1);
    assert |FlatFrom(chains, b)| == |FlatFrom(chains, 0)| - off;
    hide FlatFrom, Offset;
    assert FlatFrom(chains, b)[..|chains[b]|] == chains[b];
  }

  lemma {:induction false} InSomeChain<T>(chains: seq<seq<T>>, b: nat, x: T)
    requires x in FlatFrom(chains, b)
    ensures exists c :: b <= c < |chains| && x in chains[c]
    decreases |chains| - b
  {
    if x !in chains[b] {
      InSomeChain(chains, b + 1, x);
    }
  }

  lemma UniqueJoin<T>(a: seq<T>, b: seq<T>)
    requires Unique(a) && Unique(b) && forall x :: x in a ==> x !in b
    ensures Unique(a + b)
  {
    var s := a + b;
    forall i, j | 0 <= i < j < |s| ensures s[i] != s[j] {
      if i < |a| <= j {
        assert a[i] in a && s[j] == b[j - |a|];
        assert b[j - |a|] in b;
      }
    }
  }

  lemma {:induction false} AllUnique<T>(chains: seq<seq<T>>, b: nat)
    requires forall c :: 0 <= c < |chains| ==> Unique(chains[c])
    requires forall c, d, x :: 0 <= c < d < |chains| && x in chains[c] ==> x !in chains[d]
    ensures Unique(FlatFrom(chains, b))
    decreases |chains| - b
  {
    if b < |chains| {
      AllUnique(chains, b + 1);
      forall x | x in chains[b] ensures x !in FlatFrom(chains, b + 1) {
        if x in FlatFrom(chains, b + 1) {
          InSomeChain(chains, b + 1, x);
        }
      }
      UniqueJoin(chains[b], FlatFrom(chains, b + 1));
    }
  }

  lemma NodesUnique(t: Table)
    requires t.Valid()
    ensures Unique(FlatFrom(t.chains, 0))
  {
    forall b | 0 <= b < |t.chains| ensures Unique(t.chains[b]) && forall x :: x in t.chains[b] ==> x.bucket == b {
      LinkedPlaces(t.buckets[b], t.chains[b], b);
    }
    AllUnique(t.chains, 0);
  }

  lemma UniqueIndex<T>(s: seq<T>, k: nat)
    requires Unique(s) && k < |s|
    ensures IndexOf(s, s[k]) == k
  {
  }

  /** The next pointers read through the numbers of the nodes. */
  ghost predicate Reads(order: seq<Node>, next: map<nat, Option<nat>>)
    reads (set n | n in order)`next
  {
    forall e :: 0 <= e < |order| ==> e in next && next[e] == IdOf(order, order[e].next)
  }

  lemma LinkAt(head: Node?, chain: seq<Node>, b: nat, i: nat)
    requires Linked(head, chain, b) && i < |chain|
    ensures chain[i].next == At(chain, i + 1) && At(chain, i) == chain[i]
  {
  }

  lemma SliceAt<T>(s: seq<T>, part: seq<T>, from: nat, i: nat)
    requires from + |part| <= |s| && s[from..from + |part|] == part && i < |part|
    ensures s[from + i] == part[i]
  {
  }

  lemma ListCons(next: map<nat, Option<nat>>, from: nat, n: nat)
    requires n > 0 && from in next && H.IsList(next, next[from], Numbers(from + 1, n - 1))
    ensures H.IsList(next, Some(from), Numbers(from, n))
  {
    assert Numbers(from, n)[1..] == Numbers(from + 1, n - 1);
  }

  lemma ListEnd(next: map<nat, Option<nat>>, order: seq<Node>, from: nat)
    ensures H.IsList(next, IdOf(order, null), Numbers(from, 0))
  {
  }

  lemma {:induction false} ChainIsList(order: seq<Node>, head: Node?, chain: seq<Node>, b: nat, next: map<nat,
                                       Option<nat>>, from: nat, i: nat)
    requires Unique(order) && Reads(order, next) && Linked(head, chain, b) && i <= |chain|
    requires from + |chain| <= |order| && order[from..from + |chain|] == chain
    ensures H.IsList(next, IdOf(order, At(chain, i)), Numbers(from + i, |chain| - i))
    decreases |chain| - i
  {
    hide Unique, Linked, Reads, IdOf, H.IsList, Numbers;
    if i == |chain| {
      ListEnd(next, order, from + i);
    } else {
      ChainIsList(order, head, chain, b, next, from, i + 1);
      SliceAt(order, chain, from, i);
      NextNumber(order, next, from + i);
      LinkAt(head, chain, b, i);
      ListCons(next, from + i, |chain| - i);
    }
  }

  lemma NextNumber(order: seq<Node>, next: map<nat, Option<nat>>, e: nat)
    requires Unique(order) && Reads(order, next) && e < |order|
    ensures IdOf(order, order[e]) == Some(e) && e in next && next[e] == IdOf(order, order[e].next)
  {
    UniqueIndex(order, e);
  }

  lemma {:induction false} SameGroups(chains: seq<seq<Node>>, view: seq<Chain>, b: nat)
    requires |chains| == |view| && forall c :: 0 <= c < |chains| ==> Holds(chains[c], view[c])
    ensures |FlatFrom(chains, b)| == |FlatFrom(view, b)|
    ensures forall e :: 0 <= e < |FlatFrom(chains, b)| ==>
              FlatFrom(view, b)[e] == Group(FlatFrom(chains, b)[e].token, FlatFrom(chains, b)[e].contents)
    decreases |chains| - b
  {
    if b < |chains| {
      SameGroups(chains, view, b + 1);
      assert Holds(chains[b], view[b]);
    }
  }

  lemma TableParts(t: Table)
    requires t.Valid()
    ensures |t.chains| == |t.view| == t.buckets.Length > 0
    ensures forall b :: 0 <= b < |t.chains| ==> Linked(t.buckets[b], t.chains[b], b) && Holds(t.chains[b], t.view[b])
  {
  }

  lemma HeadOf(head: Node?, chain: seq<Node>, b: nat)
    requires Linked(head, chain, b)
    ensures At(chain, 0) == head
  {
  }

  lemma BucketsAreLists(t: Table, order: seq<Node>, next: map<nat, Option<nat>>, b: nat)
    requires t.Valid() && order == FlatFrom(t.chains, 0) && Reads(order, next) && b < |t.chains|
    ensures b < t.buckets.Length
    ensures H.IsList(next, IdOf(order, t.buckets[b]), Numbers(Offset(t.chains, b), |t.chains[b]|))
  {
    hide Table.Valid, FlatFrom, H.IsList, IdOf, Unique, Reads, Offset, Linked, Holds;
    TableParts(t);
    NodesUnique(t);
    PlaceOf(t.chains, b);
    ChainIsList(order, t.buckets[b], t.chains[b], b, next, Offset(t.chains, b), 0);
    HeadOf(t.buckets[b], t.chains[b], b);
  }

  lemma NodesInOrder(t: Table)
    requires t.Valid()
    ensures |Nodes(t.view)| == |FlatFrom(t.chains, 0)|
    ensures forall e :: 0 <= e < |Nodes(t.view)| ==>
              Nodes(t.view)[e] == Group(FlatFrom(t.chains, 0)[e].token, FlatFrom(t.chains, 0)[e].contents)
  {
    TableParts(t);
    hide Table.Valid, Linked, Holds;
    SameGroups(t.chains, t.view, 0);
  }

  /** The nodes in walk order, and the table as seen through their numbers: it is well-formed for Handoff, whose order
      of pushing is then that of the groups of the whole table. */
  lemma TableIsHandedOff(t: Table, workers: nat, capacity: nat) returns (c: H.Config, order: seq<Node>)
    requires t.Valid() && workers > 0 && capacity > 0
    ensures H.ValidConfig(c) && c.workers == workers && c.capacity == capacity
    ensures Unique(order) && H.All(c) == Numbers(0, |order|)
    ensures |c.head| == t.buckets.Length && forall b :: 0 <= b < |c.head| ==> c.head[b] == IdOf(order, t.buckets[b])
    ensures Reads(order, c.next)
    ensures |Nodes(t.view)| == |order|
    ensures forall e :: 0 <= e < |order| ==> Nodes(t.view)[e] == Group(order[e].token, order[e].contents)
  {
    var chains := t.chains;
    order := FlatFrom(chains, 0);
    var heads := t.buckets[..];
    var head := seq(|heads|, b requires 0 <= b < |heads| => IdOf(order, heads[b]));
    var next := map e | 0 <= e < |order| :: IdOf(order, order[e].next);
    c := H.Config(head, next, Ids(chains), workers, capacity);
    TableParts(t);
    NodesUnique(t);
    NodesInOrder(t);
    IdsCountUp(chains, 0);
    NumbersDistinct(|order|);
    hide Table.Valid, Linked, Holds, FlatFrom, Nodes, H.IsList, H.Distinct, IdOf, Unique, Numbers;
    forall b | 0 <= b < |chains| ensures H.IsList(next, head[b], c.chains[b]) {
      BucketsAreLists(t, order, next, b);
    }
  }
}
