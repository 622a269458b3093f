/** The reducer's chained hash table on the heap (src/reducer.c:15-21, 115-176, 225-248): linked nodes with doubling
    value arrays. It refines the value-level table of Grouping. */
module HashTable {
  import opened Collections
  import opened Wire
  import opened Grouping
  import opened FileIO
  import opened Output
  import opened Protocol
  import Hash

  // ---------------------------------------------------------------- growth

  /** The capacity of a value array after n appends. */
  ghost function CapacityAfter(n: nat): nat
  {
    if n == 0 then 0
    else
      var c := CapacityAfter(n - 1);
      if c != n - 1 then c else if c == 0 then 8 else 2 * c
  }

  /** How many elements all reallocations together have moved after n appends. */
  ghost function MovedAfter(n: nat): nat
  {
    if n == 0 then 0 else MovedAfter(n - 1) + if CapacityAfter(n - 1) == n - 1 then n - 1 else 0
  }

  ghost function Pow2(k: nat): nat { if k == 0 then 1 else 2 * Pow2(k - 1) }

  ghost predicate EightTimesPower(c: nat)
  {
    exists k: nat :: c == 8 * Pow2(k)
  }

  /** Amortised growth: capacities are eight times a power of two, never more than twice what is needed, and n appends
      move fewer than 2n elements in all. */
  lemma {:induction false} GrowthIsAmortised(n: nat)
    requires n >= 1
    ensures EightTimesPower(CapacityAfter(n))
    ensures n <= CapacityAfter(n) && (CapacityAfter(n) == 8 || CapacityAfter(n) <= 2 * (n - 1))
    ensures MovedAfter(n) == CapacityAfter(n) - 8 && MovedAfter(n) <= 2 * n
  {
    if n == 1 {
      assert CapacityAfter(1) == 8 * Pow2(0);
    } else {
      GrowthIsAmortised(n - 1);
      var k: nat :| CapacityAfter(n - 1) == 8 * Pow2(k);
      assert 2 * CapacityAfter(n - 1) == 8 * Pow2(k + 1);
    }
  }

  lemma GrowthHoldsAll(n: nat)
    ensures n <= CapacityAfter(n)
  {
    if n >= 1 { GrowthIsAmortised(n); }
  }

  // ---------------------------------------------------------------- nodes

  /** token_node_t. `bucket` and `rank` record where the node was inserted: ranks count from the end of the chain, so
      inserting at the head moves no node. */
  class Node {
    const token: CString
    var values: array<Blob>
    var count: nat
    var next: Node?
    ghost const bucket: nat
    ghost const rank: nat
    ghost var moved: nat
    /** values[0..count), in arrival order. */
    ghost var contents: seq<Blob>

    ghost predicate Valid()
      reads this, values
    {
      && count <= values.Length && values[..count] == contents
      && values.Length == CapacityAfter(count) && moved == MovedAfter(count)
    }

    /** The new node of find_or_create_token: no values, no array. */
    constructor (token: CString, next: Node?, ghost bucket: nat, ghost rank: nat)
      ensures Valid() && contents == [] && fresh(values)
      ensures this.token == token && this.next == next && this.bucket == bucket && this.rank == rank
    {
      this.token := token;
      this.next := next;
      this.bucket := bucket;
      this.rank := rank;
      this.moved := 0;
      this.contents := [];
      count := 0;
      values := new Blob[0];
    }

    /** add_value_to_token. */
    method AddValue(value: Blob)
      requires Valid()
      modifies this`values, this`count, this`moved, this`contents, values
      ensures Valid() && contents == old(contents) + [value]
      ensures values == old(values) || fresh(values)
    {
      if count == values.Length {
        var capacity := if values.Length == 0 then 8 else values.Length * 2;
        var bigger := new Blob[capacity](i requires 0 <= i reads this, values =>
          if i < values.Length then values[i] else []);
        moved := moved + count;
        values := bigger;
      }
      values[count] := value;
      count := count + 1;
      contents := contents + [value];
      GrowthHoldsAll(count);
    }
  }

  function At(s: seq<Node>, i: nat): Node?
  {
    if i < |s| then s[i] else null
  }

  /** The walk stops where Find says. */
  lemma FindIs(chain: Chain, i: nat, token: CString)
    requires i <= |chain| && forall k :: 0 <= k < i ==> chain[k].token != token
    requires i < |chain| ==> chain[i].token == token
    ensures Find(chain, token) == i
  {
  }

  /** From `head` on, the list is linked as `chain`, with every node in its own place in bucket b. */
  ghost predicate Linked(head: Node?, chain: seq<Node>, b: nat)
    reads (set n | n in chain)`next
  {
    && head == At(chain, 0)
    && forall i :: 0 <= i < |chain| ==>
      chain[i].bucket == b && chain[i].rank == |chain| - 1 - i && chain[i].next == At(chain, i + 1)
  }

  /** The nodes of a chain hold these groups. */
  ghost predicate Holds(chain: seq<Node>, groups: Chain)
    reads (set n | n in chain)`contents
  {
    |chain| == |groups| && forall i :: 0 <= i < |chain| ==> groups[i] == Group(chain[i].token, chain[i].contents)
  }

  lemma LinkedPlaces(head: Node?, chain: seq<Node>, b: nat)
    requires Linked(head, chain, b)
    ensures forall n :: n in chain ==> n.bucket == b
    ensures forall i, j :: 0 <= i < |chain| && 0 <= j < |chain| && chain[i] == chain[j] ==> i == j
  {
    forall i, j | 0 <= i < |chain| && 0 <= j < |chain| && chain[i] == chain[j] ensures i == j {
      assert chain[i].rank == |chain| - 1 - i && chain[j].rank == |chain| - 1 - j;
    }
  }

  lemma LinkedPrepend(node: Node, head: Node?, chain: seq<Node>, b: nat, groups: Chain)
    requires Linked(head, chain, b) && Holds(chain, groups)
    requires node.next == head && node.bucket == b && node.rank == |chain| && node.contents == []
    ensures Linked(node, [node] + chain, b) && Holds([node] + chain, [Group(node.token, [])] + groups)
  {
    var chain' := [node] + chain;
    assert forall i :: 0 < i < |chain'| ==> chain'[i] == chain[i - 1];
  }

  /** Finding or creating the node and then appending to it is AddPair. */
  lemma AddPairInTwoSteps(l: Layout, before: seq<Chain>, found: seq<Chain>, i: nat, r: Record)
    requires l.size > 0 && |before| == l.size
    requires var b := Slot(l, r.token); var chain := before[b];
             if Find(chain, r.token) < |chain| then found == before && i == Find(chain, r.token)
             else i == 0 && found == before[b := [Group(r.token, [])] + chain]
    ensures var b := Slot(l, r.token);
            && |found| == l.size && i < |found[b]|
            && AddPair(l, before, r) == found[b := found[b][i := Group(r.token, found[b][i].values + [r.payload])]]
  {
    hide Slot;
    var b := Slot(l, r.token);
    var chain := before[b];
    if Find(chain, r.token) == |chain| {
      assert ([Group(r.token, [])] + chain)[0 := Group(r.token, [r.payload])] == [Group(r.token, [r.payload])] + chain;
      assert [] + [r.payload] == [r.payload];
    }
  }

  // ---------------------------------------------------------------- the table

  class Table {
    const layout: Layout
    const buckets: array<Node?>
    /** The nodes of each chain in link order, all nodes, and the table's meaning. */
    ghost var chains: seq<seq<Node>>
    ghost var nodes: set<Node>
    ghost var view: seq<Chain>

    ghost predicate Valid()
      reads this, buckets, nodes, set n | n in nodes :: n.values
    {
      && layout.size > 0 && buckets.Length == |chains| == |view| == layout.size
      && (forall b, n :: 0 <= b < |chains| && n in chains[b] ==> n in nodes)
      && (forall b :: 0 <= b < |chains| ==> Linked(buckets[b], chains[b], b) && Holds(chains[b], view[b]))
      && NodesOk()
    }

    /** Every node is valid and has its own value array. */
    ghost predicate NodesOk()
      reads this`nodes, nodes, set n | n in nodes :: n.values
    {
      && (forall n :: n in nodes ==> n.Valid() && n.values as object != buckets)
      && (forall m, n :: m in nodes && n in nodes && m != n ==> m.values != n.values)
    }

    /** The zero-initialised table of reducer_process_main. */
    constructor (layout: Layout)
      requires layout.size > 0
      ensures Valid() && fresh(buckets) && nodes == {} && this.layout == layout && view == EmptyTable(layout)
    {
      this.layout := layout;
      buckets := new Node?[layout.size](i => null);
      chains := seq(layout.size, i => []);
      nodes := {};
      view := EmptyTable(layout);
    }

    /** The walk along a chain. */
    method Walk(h: nat, token: CString) returns (node: Node?, ghost i: nat)
      requires Valid() && h < layout.size
      ensures i == Find(view[h], token) && node == At(chains[h], i)
      ensures node != null ==> i < |chains[h]| && node.token == token
    {
      ghost var chain := chains[h];
      assert Linked(buckets[h], chain, h) && Holds(chain, view[h]);
      i := 0;
      node := buckets[h];
      while node != null && node.token != token
        invariant i <= |chain| && node == At(chain, i)
        invariant forall k :: 0 <= k < i ==> view[h][k].token != token
        decreases |chain| - i
      {
        node := node.next;
        i := i + 1;
      }
      FindIs(view[h], i, token);
    }

    /** A new node becomes the head of its chain. */
    method Prepend(h: nat, token: CString) returns (node: Node)
      requires Valid() && h < layout.size
      modifies this`chains, this`nodes, this`view, buckets
      ensures Valid() && nodes == old(nodes) + {node} && fresh(node) && fresh(node.values)
      ensures |chains[h]| > 0 && chains[h][0] == node && node.token == token
      ensures view == old(view)[h := [Group(token, [])] + old(view)[h]]
    {
      hide Linked, Holds;
      ghost var chain := chains[h];
      node := new Node(token, buckets[h], h, |chain|);
      LinkedPrepend(node, buckets[h], chain, h, view[h]);
      buckets[h] := node;
      view := view[h := [Group(token, [])] + view[h]];
      chains := chains[h := [node] + chain];
      nodes := nodes + {node};
    }

    /** find_or_create_token: the token's node and its place; a new one goes to the head of its chain. */
    method FindOrCreate(token: CString) returns (node: Node, ghost i: nat)
      requires Valid()
      modifies this`chains, this`nodes, this`view, buckets
      ensures Valid() && nodes == old(nodes) + {node}
      ensures node !in old(nodes) ==> fresh(node) && fresh(node.values)
      ensures Hash.Belongs(token, layout.signed, layout.size, Slot(layout, token))
      ensures var b := Slot(layout, token);
              && i < |chains[b]| && chains[b][i] == node && node.token == token
              && var chain := old(view)[b];
                 if Find(chain, token) < |chain| then view == old(view) && i == Find(chain, token)
                 else i == 0 && view == old(view)[b := [Group(token, [])] + chain]
    {
      var h := Hash.HashFunction(token, layout.signed, layout.size);
      hide Hash.Belongs;
      var cur;
      cur, i := Walk(h, token);
      assert Holds(chains[h], view[h]);
      if cur != null {
        node := cur;
      } else {
        node := Prepend(h, token);
        i := 0;
      }
    }

    /** A node is in no other place of the table. */
    lemma OnlyPlace(b: nat, i: nat)
      requires Valid() && b < |chains| && i < |chains[b]|
      ensures forall c :: 0 <= c < |chains| && c != b ==> chains[b][i] !in chains[c]
      ensures forall k :: 0 <= k < |chains[b]| && chains[b][k] == chains[b][i] ==> k == i
    {
      hide Linked, Holds;
      LinkedPlaces(buckets[b], chains[b], b);
      forall c | 0 <= c < |chains| && c != b ensures chains[b][i] !in chains[c] {
        LinkedPlaces(buckets[c], chains[c], c);
      }
    }

    /** add_value_to_token keeps every node valid and every value array its own. */
    method AddValueTo(node: Node, value: Blob)
      requires NodesOk() && node in nodes
      modifies node`values, node`count, node`moved, node`contents, node.values
      ensures NodesOk() && (node.values == old(node.values) || fresh(node.values))
      ensures node.contents == old(node.contents) + [value]
    {
      node.AddValue(value);
    }

    /** add_value_to_token on a node of the table. */
    method Append(node: Node, ghost b: nat, ghost i: nat, value: Blob)
      requires Valid() && b < layout.size && i < |chains[b]| && chains[b][i] == node
      modifies this`view, node`values, node`count, node`moved, node`contents, node.values
      ensures Valid() && (node.values == old(node.values) || fresh(node.values))
      ensures i < |old(view)[b]|
      ensures view == old(view)[b := old(view)[b][i := Group(node.token, old(view)[b][i].values + [value])]]
    {
      hide Linked, NodesOk, Node.Valid;
      OnlyPlace(b, i);
      assert Holds(chains[b], view[b]);
      AddValueTo(node, value);
      ghost var after := view[b][i := Group(node.token, node.contents)];
      assert Holds(chains[b], after);
      hide Holds;
      view := view[b := after];
    }

    /** One turn of the collection loop. */
    method Add(r: Record)
      requires Valid()
      modifies this`chains, this`nodes, this`view, buckets, nodes, set n | n in nodes :: n.values
      ensures Valid() && fresh(nodes - old(nodes)) && old(nodes) <= nodes
      ensures forall n :: n in nodes ==> (n in old(nodes) && n.values == old(n.values)) || fresh(n.values)
      ensures view == AddPair(layout, old(view), r)
    {
      hide Linked, Holds, Slot, Find, AddPair;
      ghost var before := view;
      var node, i := FindOrCreate(r.token);
      AddPairInTwoSteps(layout, before, view, i, r);
      Append(node, Slot(layout, r.token), i, r.payload);
    }
  }

  /** The collection phase on the bytes of the pipe: at end of stream the table means exactly the groups of the pairs
      sent, and its node counts add up to pairs_received. */
  method Collect(fd: ReadEnd, layout: Layout, ghost us: seq<Unit>) returns (t: Table, received: nat)
    requires layout.size > 0 && fd.rest == Stream(us) && forall i :: 0 <= i < |us| ==> us[i].Rec?
    modifies fd
    ensures fresh(t) && t.Valid() && t.view == Grouping.Table(layout, RecordsIn(us))
    ensures Groups(Nodes(t.view), RecordsIn(us))
    ensures received == |us| && SumNat(Counts(), t.view) == received
  {
    hide Stream, Groups, Nodes, SumNat, AddPair, RecordsIn;
    t := new Table(layout);
    received := 0;
    assert us[..0] == [] && us[0..] == us;
    assert RecordsIn([]) == [] by { NoRecords(); }
    while true
      invariant received <= |us| && fd.rest == Stream(us[received..])
      invariant t.Valid() && t.layout == layout && t.view == Grouping.Table(layout, RecordsIn(us[..received]))
      invariant |RecordsIn(us[..received])| == received
      invariant fresh(t) && fresh(t.buckets) && fresh(t.nodes) && forall n :: n in t.nodes ==> fresh(n.values)
      decreases |us| - received
    {
      var r := ReceiveRecord(fd, us[received..]);
      if r.None? {
        break;
      }
      OneMoreRecord(us, received);
      TableSnoc(layout, RecordsIn(us[..received]), r.value);
      t.Add(r.value);
      received := received + 1;
    }
    assert us[..received] == us;
    NodesAreGroups(layout, RecordsIn(us));
    CountsAddUp(layout, RecordsIn(us));
  }
}
