/** What the reducer's hash table computes, as values: chains of token groups, newest node first
    (src/reducer.c:126-176, 225-248), and why that is grouping by token. */
module Grouping {
  import opened Collections
  import opened Wire
  import opened Hash

  /** A token_node: the token with its values in arrival order. */
  datatype Group = Group(token: CString, values: seq<Blob>)

  type Chain = seq<Group>

  /** How the table is laid out: MR_REDUCER_HASH_TABLE_SIZE and the signedness of char. */
  datatype Layout = Layout(size: nat, signed: bool)

  function Slot(l: Layout, token: seq<Byte>): (b: nat)
    requires l.size > 0
    ensures b < l.size
  {
    Bucket(token, l.signed, l.size)
  }

  /** The walk of find_or_create_token; |chain| when the token is not there. */
  function Find(chain: Chain, token: CString): (i: nat)
    ensures i <= |chain|
    ensures i < |chain| ==> chain[i].token == token
    ensures forall k :: 0 <= k < i ==> chain[k].token != token
  {
    if chain == [] || chain[0].token == token then 0 else 1 + Find(chain[1..], token)
  }

  /** Appends to the token's node, or to a new node at the head of the chain. */
  function AddToChain(chain: Chain, r: Record): Chain
  {
    var i := Find(chain, r.token);
    if i < |chain| then chain[i := Group(r.token, chain[i].values + [r.payload])]
    else [Group(r.token, [r.payload])] + chain
  }

  function AddPair(l: Layout, table: seq<Chain>, r: Record): (t: seq<Chain>)
    requires l.size > 0 && |table| == l.size
    ensures |t| == l.size
  {
    var b := Slot(l, r.token);
    table[b := AddToChain(table[b], r)]
  }

  function EmptyTable(l: Layout): (t: seq<Chain>)
    ensures |t| == l.size
  {
    seq(l.size, i => [])
  }

  /** The table after the collection loop has received these pairs. */
  function Table(l: Layout, pairs: seq<Record>): (t: seq<Chain>)
    requires l.size > 0
    ensures |t| == l.size
  {
    if pairs == [] then EmptyTable(l) else AddPair(l, Table(l, pairs[..|pairs| - 1]), pairs[|pairs| - 1])
  }

  lemma TableSnoc(l: Layout, pairs: seq<Record>, r: Record)
    requires l.size > 0
    ensures Table(l, pairs + [r]) == AddPair(l, Table(l, pairs), r)
  {
    assert (pairs + [r])[..|pairs|] == pairs;
  }

  /** The specification: the values emitted for a token, in order. */
  function ValuesOf(pairs: seq<Record>, token: CString): seq<Blob>
  {
    if pairs == [] then []
    else
      var n := |pairs| - 1;
      ValuesOf(pairs[..n], token) + if pairs[n].token == token then [pairs[n].payload] else []
  }

  /** The places of a token's pairs, in order. */
  ghost predicate PlacesOf(places: seq<nat>, pairs: seq<Record>, token: CString)
  {
    && (forall i :: 0 <= i < |places| ==> places[i] < |pairs|)
    && (forall i, j :: 0 <= i < j < |places| ==> places[i] < places[j])
    && (forall k: nat :: k < |pairs| ==> (pairs[k].token == token <==> k in places))
  }

  ghost predicate AtPlaces(vs: seq<Blob>, places: seq<nat>, pairs: seq<Record>)
  {
    |vs| == |places| && forall i :: 0 <= i < |places| ==> places[i] < |pairs| && vs[i] == pairs[places[i]].payload
  }

  /** The values of a token are the payloads of its pairs, in the order in which those arrived. */
  lemma {:induction false} ValuesInOrder(pairs: seq<Record>, token: CString) returns (places: seq<nat>)
    ensures PlacesOf(places, pairs, token) && AtPlaces(ValuesOf(pairs, token), places, pairs)
  {
    if pairs == [] {
      places := [];
    } else {
      var n := |pairs| - 1;
      var before := ValuesInOrder(pairs[..n], token);
      assert pairs == pairs[..n] + [pairs[n]];
      hide ValuesOf, PlacesOf, AtPlaces;
      places := if pairs[n].token == token then before + [n] else before;
      PlacesSnoc(before, pairs, token);
      ValuesOfSnoc(pairs[..n], pairs[n], token);
      AtPlacesSnoc(ValuesOf(pairs[..n], token), before, pairs);
    }
  }

  lemma AtPlacesSnoc(vs: seq<Blob>, places: seq<nat>, pairs: seq<Record>)
    requires pairs != [] && AtPlaces(vs, places, pairs[..|pairs| - 1])
    ensures AtPlaces(vs, places, pairs) && vs + [] == vs
    ensures AtPlaces(vs + [pairs[|pairs| - 1].payload], places + [|pairs| - 1], pairs)
  {
  }

  lemma PlacesSnoc(before: seq<nat>, pairs: seq<Record>, token: CString)
    requires pairs != [] && PlacesOf(before, pairs[..|pairs| - 1], token)
    ensures PlacesOf(if pairs[|pairs| - 1].token == token then before + [|pairs| - 1] else before, pairs, token)
  {
    var n := |pairs| - 1;
    assert forall k :: 0 <= k < n ==> pairs[..n][k] == pairs[k];
    if pairs[n].token == token {
      var places := before + [n];
      assert places[|before|] == n;
      assert forall k: nat :: k < n ==> (k in places <==> k in before);
    }
  }

  ghost predicate Distinct(gs: seq<Group>)
  {
    forall i, j :: 0 <= i < j < |gs| ==> gs[i].token != gs[j].token
  }

  /** A chain holds exactly the tokens of its bucket, each once, each with all its values in order. */
  ghost predicate ChainOk(l: Layout, b: nat, chain: Chain, pairs: seq<Record>)
    requires l.size > 0
  {
    && Distinct(chain)
    && (forall i :: 0 <= i < |chain| ==>
          && Slot(l, chain[i].token) == b && chain[i].values != []
          && chain[i].values == ValuesOf(pairs, chain[i].token))
    && (forall t: CString :: Slot(l, t) == b && ValuesOf(pairs, t) != [] ==> Find(chain, t) < |chain|)
  }

  lemma ValuesOfSnoc(pairs: seq<Record>, r: Record, token: CString)
    ensures ValuesOf(pairs + [r], token) == ValuesOf(pairs, token) + if r.token == token then [r.payload] else []
  {
    assert (pairs + [r])[..|pairs|] == pairs;
  }

  lemma FindFinds(chain: Chain, i: nat)
    requires i < |chain|
    ensures Find(chain, chain[i].token) <= i
  {
  }

  lemma AddToChainFinds(chain: Chain, r: Record, t: CString)
    requires t == r.token || Find(chain, t) < |chain|
    ensures Find(AddToChain(chain, r), t) < |AddToChain(chain, r)|
  {
    var i := Find(chain, r.token);
    if t == r.token {
      FindFinds(AddToChain(chain, r), if i < |chain| then i else 0);
    } else {
      var j := Find(chain, t);
      FindFinds(AddToChain(chain, r), if i < |chain| then j else j + 1);
    }
  }

  lemma AddToChainDistinct(chain: Chain, r: Record)
    requires Distinct(chain)
    ensures Distinct(AddToChain(chain, r))
  {
    var chain' := AddToChain(chain, r);
    var i := Find(chain, r.token);
    forall k, l | 0 <= k < l < |chain'| ensures chain'[k].token != chain'[l].token {
      if i == |chain| {
        assert chain'[l] == chain[l - 1];
        if k > 0 { assert chain'[k] == chain[k - 1]; }
      }
    }
  }

  lemma AddToChainOk(l: Layout, b: nat, chain: Chain, pairs: seq<Record>, r: Record)
    requires l.size > 0 && ChainOk(l, b, chain, pairs) && Slot(l, r.token) == b
    ensures ChainOk(l, b, AddToChain(chain, r), pairs + [r])
  {
    hide Slot, ValuesOf;
    var chain' := AddToChain(chain, r);
    AddToChainDistinct(chain, r);
    ValuesOfSnoc(pairs, r, r.token);
    forall k | 0 <= k < |chain'|
      ensures Slot(l, chain'[k].token) == b && chain'[k].values == ValuesOf(pairs + [r], chain'[k].token)
    {
      ValuesOfSnoc(pairs, r, chain'[k].token);
    }
    hide AddToChain;
    forall t: CString | Slot(l, t) == b && ValuesOf(pairs + [r], t) != []
      ensures Find(chain', t) < |chain'|
    {
      hide Distinct;
      ValuesOfSnoc(pairs, r, t);
      AddToChainFinds(chain, r, t);
    }
  }

  lemma OtherChainOk(l: Layout, b: nat, chain: Chain, pairs: seq<Record>, r: Record)
    requires l.size > 0 && ChainOk(l, b, chain, pairs) && Slot(l, r.token) != b
    ensures ChainOk(l, b, chain, pairs + [r])
  {
    hide Slot, ValuesOf, Find;
    forall t: CString | Slot(l, t) == b ensures ValuesOf(pairs + [r], t) == ValuesOf(pairs, t) {
      ValuesOfSnoc(pairs, r, t);
    }
  }

  lemma SlotBelongs(l: Layout, token: seq<Byte>)
    requires l.size > 0
    ensures Belongs(token, l.signed, l.size, Slot(l, token))
    ensures WORD % l.size == 0 ==> Djb2(token, l.signed) % l.size == Slot(l, token)
  {
    BucketBelongs(token, l.signed, l.size);
    if WORD % l.size == 0 { BelongsByDjb2(token, l.signed, l.size, Slot(l, token)); }
  }

  /** The table groups: after any pairs, every chain holds exactly the tokens whose hash belongs there, each once and
      with exactly its values. */
  lemma TableGroups(l: Layout, pairs: seq<Record>)
    requires l.size > 0
    ensures forall b :: 0 <= b < l.size ==> ChainOk(l, b, Table(l, pairs)[b], pairs)
    ensures forall b, i :: 0 <= b < l.size && 0 <= i < |Table(l, pairs)[b]| ==>
              Belongs(Table(l, pairs)[b][i].token, l.signed, l.size, b)
    ensures WORD % l.size == 0 ==>
              forall b, i :: 0 <= b < l.size && 0 <= i < |Table(l, pairs)[b]| ==>
                Djb2(Table(l, pairs)[b][i].token, l.signed) % l.size == b
  {
    ChainsAreOk(l, pairs);
    hide Slot, Belongs, Djb2, ValuesOf, Find;
    var t: seq<Chain> := Table(l, pairs);
    forall b, i | 0 <= b < l.size && 0 <= i < |t[b]|
      ensures Belongs(t[b][i].token, l.signed, l.size, b)
      ensures WORD % l.size == 0 ==> Djb2(t[b][i].token, l.signed) % l.size == b
    {
      SlotBelongs(l, t[b][i].token);
      assert ChainOk(l, b, t[b], pairs);
    }
  }

  lemma {:induction false} ChainsAreOk(l: Layout, pairs: seq<Record>)
    requires l.size > 0
    ensures forall b :: 0 <= b < l.size ==> ChainOk(l, b, Table(l, pairs)[b], pairs)
  {
    if pairs != [] {
      var n := |pairs| - 1;
      var r := pairs[n];
      var t := Table(l, pairs[..n]);
      ChainsAreOk(l, pairs[..n]);
      assert pairs == pairs[..n] + [r];
      forall b | 0 <= b < l.size ensures ChainOk(l, b, Table(l, pairs)[b], pairs) {
        if b == Slot(l, r.token) {
          AddToChainOk(l, b, t[b], pairs[..n], r);
        } else {
          OtherChainOk(l, b, t[b], pairs[..n], r);
        }
      }
    }
  }

  ghost function Counts(): Chain -> nat { (c: Chain) => SumNat(Count(), c) }

  ghost function Count(): Group -> nat { (g: Group) => |g.values| }

  lemma AddToChainCounts(chain: Chain, r: Record)
    ensures SumNat(Count(), AddToChain(chain, r)) == SumNat(Count(), chain) + 1
  {
    var i := Find(chain, r.token);
    if i < |chain| {
      SumNatUpdate(Count(), chain, i, Group(r.token, chain[i].values + [r.payload]));
    } else {
      SumNatFront(Count(), Group(r.token, [r.payload]), chain);
    }
  }

  lemma {:induction false} EmptyCounts(t: seq<Chain>)
    requires forall i :: 0 <= i < |t| ==> t[i] == []
    ensures SumNat(Counts(), t) == 0
  {
    if t != [] {
      EmptyCounts(t[..|t| - 1]);
    }
  }

  /** The node counts add up to pairs_received. */
  lemma {:induction false} CountsAddUp(l: Layout, pairs: seq<Record>)
    requires l.size > 0
    ensures SumNat(Counts(), Table(l, pairs)) == |pairs|
  {
    if pairs == [] {
      EmptyCounts(EmptyTable(l));
    } else {
      var n := |pairs| - 1;
      var t := Table(l, pairs[..n]);
      var b := Slot(l, pairs[n].token);
      CountsAddUp(l, pairs[..n]);
      AddToChainCounts(t[b], pairs[n]);
      SumNatUpdate(Counts(), t, b, AddToChain(t[b], pairs[n]));
    }
  }

  // ---------------------------------------------------------------- all nodes

  /** The nodes in the order in which the push loop visits them. */
  ghost function Nodes(table: seq<Chain>): seq<Group>
  {
    FlatFrom(table, 0)
  }

  lemma NodesSnoc(table: seq<Chain>)
    requires table != []
    ensures Nodes(table) == Nodes(table[..|table| - 1]) + table[|table| - 1]
  {
    FlatFromSnoc(table, 0);
  }

  /** One group per distinct token, with exactly its values in emission order. */
  ghost predicate Groups(gs: seq<Group>, pairs: seq<Record>)
  {
    && Distinct(gs)
    && (forall i :: 0 <= i < |gs| ==> gs[i].values != [] && gs[i].values == ValuesOf(pairs, gs[i].token))
    && (forall t: CString :: ValuesOf(pairs, t) != [] ==> Find(gs, t) < |gs|)
  }

  /** As Groups, but only for the tokens that belong to the first n buckets. */
  ghost predicate GroupsBelow(l: Layout, n: nat, gs: seq<Group>, pairs: seq<Record>)
    requires l.size > 0
  {
    && Distinct(gs)
    && (forall i :: 0 <= i < |gs| ==>
          Slot(l, gs[i].token) < n && gs[i].values != [] && gs[i].values == ValuesOf(pairs, gs[i].token))
    && (forall t: CString :: Slot(l, t) < n && ValuesOf(pairs, t) != [] ==> Find(gs, t) < |gs|)
  }

  lemma {:induction false} NodesBelow(l: Layout, table: seq<Chain>, pairs: seq<Record>)
    requires l.size > 0 && |table| <= l.size
    requires forall b :: 0 <= b < |table| ==> ChainOk(l, b, table[b], pairs)
    ensures GroupsBelow(l, |table|, Nodes(table), pairs)
  {
    hide Slot, ValuesOf;
    if table != [] {
      var n := |table| - 1;
      NodesBelow(l, table[..n], pairs);
      var before, chain := Nodes(table[..n]), table[n];
      assert ChainOk(l, n, chain, pairs);
      NodesSnoc(table);
      hide Nodes;
      forall t: CString | Slot(l, t) < n + 1 && ValuesOf(pairs, t) != []
        ensures Find(before + chain, t) < |before + chain|
      {
        if Slot(l, t) < n {
          var i := Find(before, t);
          assert (before + chain)[i].token == t;
          FindFinds(before + chain, i);
        } else {
          var i := Find(chain, t);
          assert (before + chain)[|before| + i].token == t;
          FindFinds(before + chain, |before| + i);
        }
      }
    }
  }

  /** The nodes pushed to the workers are the groups of the received pairs. */
  lemma NodesAreGroups(l: Layout, pairs: seq<Record>)
    requires l.size > 0
    ensures Groups(Nodes(Table(l, pairs)), pairs)
  {
    ChainsAreOk(l, pairs);
    NodesBelow(l, Table(l, pairs), pairs);
  }

  // ---------------------------------------------------------------- order does not matter

  /** The reducer's result does not depend on the order of the values. */
  ghost predicate OrderInsensitive(f: Group -> multiset<Record>)
  {
    forall t: CString, a: seq<Blob>, b: seq<Blob> ::
      multiset(a) == multiset(b) ==> f(Group(t, a)) == f(Group(t, b))
  }

  ghost function ValueBag(token: CString): Record -> multiset<Blob>
  {
    (r: Record) => if r.token == token then multiset{r.payload} else multiset{}
  }

  lemma {:induction false} ValuesAsBag(pairs: seq<Record>, token: CString)
    ensures multiset(ValuesOf(pairs, token)) == SumBag(ValueBag(token), pairs)
  {
    if pairs != [] {
      ValuesAsBag(pairs[..|pairs| - 1], token);
    }
  }

  /** A permutation of the pairs permutes the values of each token. */
  lemma ValuesOfPermutation(a: seq<Record>, b: seq<Record>, token: CString)
    requires multiset(a) == multiset(b)
    ensures multiset(ValuesOf(a, token)) == multiset(ValuesOf(b, token))
  {
    ValuesAsBag(a, token);
    ValuesAsBag(b, token);
    SumBagPermutation(ValueBag(token), a, b);
  }

  /** As Groups, with each token's values in any order. */
  ghost predicate GroupsInSomeOrder(gs: seq<Group>, pairs: seq<Record>)
  {
    && Distinct(gs)
    && (forall i :: 0 <= i < |gs| ==>
          gs[i].values != [] && multiset(gs[i].values) == multiset(ValuesOf(pairs, gs[i].token)))
    && (forall t: CString :: ValuesOf(pairs, t) != [] ==> Find(gs, t) < |gs|)
  }

  lemma GroupsOfPermutation(gs: seq<Group>, a: seq<Record>, b: seq<Record>)
    requires Groups(gs, a) && multiset(a) == multiset(b)
    ensures GroupsInSomeOrder(gs, b)
  {
    hide ValuesOf, Find;
    forall t: CString
      ensures multiset(ValuesOf(a, t)) == multiset(ValuesOf(b, t)) && |ValuesOf(a, t)| == |ValuesOf(b, t)|
    {
      ValuesOfPermutation(a, b, t);
      assert |multiset(ValuesOf(a, t))| == |ValuesOf(a, t)| && |multiset(ValuesOf(b, t))| == |ValuesOf(b, t)|;
    }
  }

  ghost predicate Has(gs: seq<Group>, token: CString)
  {
    exists i :: 0 <= i < |gs| && gs[i].token == token
  }

  lemma DropOne(gs: seq<Group>, k: nat)
    requires k < |gs| && Distinct(gs)
    ensures var rest := gs[..k] + gs[k + 1..];
            && Distinct(rest)
            && (forall t :: Has(rest, t) <==> Has(gs, t) && t != gs[k].token)
            && (forall g :: g in rest ==> g in gs)
  {
    var rest := gs[..k] + gs[k + 1..];
    forall i, j | 0 <= i < j < |rest| ensures rest[i].token != rest[j].token {
      assert rest[i] == gs[if i < k then i else i + 1] && rest[j] == gs[if j < k then j else j + 1];
    }
    forall t | Has(rest, t) ensures Has(gs, t) && t != gs[k].token {
      var i :| 0 <= i < |rest| && rest[i].token == t;
      assert gs[if i < k then i else i + 1].token == t;
    }
    forall t | Has(gs, t) && t != gs[k].token ensures Has(rest, t) {
      var i :| 0 <= i < |gs| && gs[i].token == t;
      assert rest[if i < k then i else i - 1].token == t;
    }
  }

  /** The same tokens, with the same values in some order. */
  ghost predicate SameGroups(a: seq<Group>, b: seq<Group>)
  {
    && Distinct(a) && Distinct(b) && (forall t :: Has(a, t) <==> Has(b, t))
    && (forall g, h :: g in a && h in b && g.token == h.token ==> multiset(g.values) == multiset(h.values))
  }

  lemma LastIsThere(a: seq<Group>, b: seq<Group>) returns (k: nat)
    requires SameGroups(a, b) && a != []
    ensures k < |b| && b[k].token == a[|a| - 1].token
    ensures multiset(b[k].values) == multiset(a[|a| - 1].values)
    ensures SameGroups(a[..|a| - 1], b[..k] + b[k + 1..])
  {
    var n := |a| - 1;
    assert Has(a, a[n].token);
    k :| 0 <= k < |b| && b[k].token == a[n].token;
    assert a[n] in a && b[k] in b;
    assert a[..n] + a[n + 1..] == a[..n];
    DropOne(a, n);
    DropOne(b, k);
    hide Distinct, Has;
  }

  lemma NothingThere(b: seq<Group>)
    requires SameGroups([], b)
    ensures b == []
  {
    assert b != [] ==> Has(b, b[0].token);
  }

  lemma OneGroup(f: Group -> multiset<Record>, g: Group, h: Group)
    requires OrderInsensitive(f) && g.token == h.token && multiset(g.values) == multiset(h.values)
    ensures f(g) == f(h)
  {
    assert f(g) == f(Group(g.token, g.values)) && f(h) == f(Group(h.token, h.values));
  }

  lemma {:induction false} SameGroupsSameBag(f: Group -> multiset<Record>, a: seq<Group>, b: seq<Group>)
    requires SameGroups(a, b) && OrderInsensitive(f)
    ensures SumBag(f, a) == SumBag(f, b)
    decreases |a|
  {
    hide SameGroups, OrderInsensitive;
    if a == [] {
      NothingThere(b);
    } else {
      var n := |a| - 1;
      var k := LastIsThere(a, b);
      SumBagRemove(f, b, k);
      OneGroup(f, a[n], b[k]);
      SameGroupsSameBag(f, a[..n], b[..k] + b[k + 1..]);
    }
  }

  lemma HasIsFound(gs: seq<Group>, t: CString)
    ensures Has(gs, t) <==> Find(gs, t) < |gs|
  {
    if Has(gs, t) {
      var i :| 0 <= i < |gs| && gs[i].token == t;
      FindFinds(gs, i);
    }
  }

  /** Grouping two arrival orders of the same pairs and reducing gives the same results. */
  lemma ReductionIgnoresArrivalOrder(f: Group -> multiset<Record>, a: seq<Group>, pa: seq<Record>, b: seq<Group>,
                                     pb: seq<Record>)
    requires Groups(a, pa) && Groups(b, pb) && multiset(pa) == multiset(pb) && OrderInsensitive(f)
    ensures SumBag(f, a) == SumBag(f, b)
  {
    hide ValuesOf, SumBag, Find, OrderInsensitive;
    forall t: CString ensures multiset(ValuesOf(pa, t)) == multiset(ValuesOf(pb, t)) {
      ValuesOfPermutation(pa, pb, t);
    }
    forall t: CString ensures Has(a, t) <==> Has(b, t) {
      HasIsFound(a, t);
      HasIsFound(b, t);
      assert |multiset(ValuesOf(pa, t))| == |ValuesOf(pa, t)| && |multiset(ValuesOf(pb, t))| == |ValuesOf(pb, t)|;
    }
    SameGroupsSameBag(f, a, b);
  }

  // ---------------------------------------------------------------- the sequential specification

  function Tokens(pairs: seq<Record>): seq<CString>
  {
    if pairs == [] then []
    else
      var n := |pairs| - 1;
      if ValuesOf(pairs[..n], pairs[n].token) == [] then Tokens(pairs[..n]) + [pairs[n].token] else Tokens(pairs[..n])
  }

  /** Sequential grouping: the tokens in order of first appearance, each with its values. */
  function GroupBy(pairs: seq<Record>): seq<Group>
  {
    var ts := Tokens(pairs);
    seq(|ts|, i requires 0 <= i < |ts| => Group(ts[i], ValuesOf(pairs, ts[i])))
  }

  lemma {:induction false} TokensAre(pairs: seq<Record>)
    ensures forall i, j :: 0 <= i < j < |Tokens(pairs)| ==> Tokens(pairs)[i] != Tokens(pairs)[j]
    ensures forall t: CString :: t in Tokens(pairs) <==> ValuesOf(pairs, t) != []
  {
    if pairs != [] {
      var n := |pairs| - 1;
      TokensAre(pairs[..n]);
    }
  }

  lemma GroupByGroups(pairs: seq<Record>)
    ensures Groups(GroupBy(pairs), pairs)
  {
    TokensAre(pairs);
    hide Tokens, ValuesOf;
    var gs, ts := GroupBy(pairs), Tokens(pairs);
    forall i | 0 <= i < |gs| ensures gs[i].values != [] {
      assert ts[i] in ts;
    }
    forall t: CString | ValuesOf(pairs, t) != [] ensures Find(gs, t) < |gs| {
      var i :| 0 <= i < |ts| && ts[i] == t;
      FindFinds(gs, i);
    }
  }
}
