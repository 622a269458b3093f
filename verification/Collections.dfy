/** Options, prefixes, sums over sequences and the permutation facts the other modules need. */
module Collections {

  datatype Option<+T> = None | Some(value: T)

  lemma Assoc<T>(a: seq<T>, b: seq<T>, c: seq<T>)
    ensures a + b + c == a + (b + c)
  {
  }

  /** The images of the elements, one after the other. */
  ghost function FlatMap<T, R>(f: T -> seq<R>, s: seq<T>): seq<R>
  {
    if s == [] then [] else FlatMap(f, s[..|s| - 1]) + f(s[|s| - 1])
  }

  /** The sequences from the b-th on, one after the other. */
  ghost function FlatFrom<T>(parts: seq<seq<T>>, b: nat): seq<T>
    decreases |parts| - b
  {
    if b >= |parts| then [] else parts[b] + FlatFrom(parts, b + 1)
  }

  lemma {:induction false} FlatFromSnoc<T>(parts: seq<seq<T>>, b: nat)
    requires b < |parts|
    ensures FlatFrom(parts, b) == FlatFrom(parts[..|parts| - 1], b) + parts[|parts| - 1]
    decreases |parts| - b
  {
    if b < |parts| - 1 {
      FlatFromSnoc(parts, b + 1);
      Assoc(parts[b], FlatFrom(parts[..|parts| - 1], b + 1), parts[|parts| - 1]);
    } else {
      assert FlatFrom(parts, |parts|) == [];
      assert FlatFrom(parts[..|parts| - 1], b) == [];
    }
  }

  /** The sum of a weight over a sequence; it peels the last element, where the queue pushes and pops. */
  ghost function SumNat<T>(f: T -> nat, s: seq<T>): nat
  {
    if s == [] then 0 else SumNat(f, s[..|s| - 1]) + f(s[|s| - 1])
  }

  lemma {:induction false} SumNatUpdate<T>(f: T -> nat, s: seq<T>, i: nat, v: T)
    requires i < |s|
    ensures SumNat(f, s[i := v]) + f(s[i]) == SumNat(f, s) + f(v)
  {
    var n := |s| - 1;
    if i == n {
      assert s[i := v][..n] == s[..n];
    } else {
      assert s[i := v][..n] == s[..n][i := v];
      SumNatUpdate(f, s[..n], i, v);
    }
  }

  lemma {:induction false} SumNatFront<T>(f: T -> nat, x: T, s: seq<T>)
    ensures SumNat(f, [x] + s) == f(x) + SumNat(f, s)
  {
    if s == [] {
      assert ([x] + s)[..0] == [];
    } else {
      assert ([x] + s)[..|s|] == [x] + s[..|s| - 1];
      SumNatFront(f, x, s[..|s| - 1]);
    }
  }

  lemma {:induction false} SumNatRemove<T>(f: T -> nat, s: seq<T>, i: nat)
    requires i < |s|
    ensures SumNat(f, s) == SumNat(f, s[..i] + s[i + 1..]) + f(s[i])
  {
    var n := |s| - 1;
    if i == n {
      assert s[..i] + s[i + 1..] == s[..n];
    } else {
      var t := s[..i] + s[i + 1..];
      assert t[..|t| - 1] == s[..n][..i] + s[..n][i + 1..] && t[|t| - 1] == s[n];
      SumNatRemove(f, s[..n], i);
    }
  }

  /** A sum does not depend on the order of the elements. */
  lemma {:induction false} SumNatPermutation<T>(f: T -> nat, a: seq<T>, b: seq<T>)
    requires multiset(a) == multiset(b)
    ensures SumNat(f, a) == SumNat(f, b)
    decreases |a|
  {
    if a == [] {
      assert |b| == |multiset(b)|;
    } else {
      var n := |a| - 1;
      assert a[n] in multiset(a);
      assert a[n] in b;
      var i :| 0 <= i < |b| && b[i] == a[n];
      BagOfRemove(b, i);
      assert a == a[..n] + [a[n]];
      SumNatRemove(f, b, i);
      assert multiset(a[..n]) == multiset(b) - multiset{a[n]};
      SumNatPermutation(f, a[..n], b[..i] + b[i + 1..]);
    }
  }

  lemma {:induction false} SumNatAppend<T>(f: T -> nat, a: seq<T>, b: seq<T>)
    ensures SumNat(f, a + b) == SumNat(f, a) + SumNat(f, b)
  {
    if b == [] {
      assert a + b == a;
    } else {
      assert (a + b)[..|a + b| - 1] == a + b[..|b| - 1];
      SumNatAppend(f, a, b[..|b| - 1]);
    }
  }

  /** The multiset union of the images of the elements. */
  ghost function SumBag<T, R>(f: T -> multiset<R>, s: seq<T>): multiset<R>
  {
    if s == [] then multiset{} else SumBag(f, s[..|s| - 1]) + f(s[|s| - 1])
  }

  lemma SumBagSnoc<T, R>(f: T -> multiset<R>, s: seq<T>, x: T)
    ensures SumBag(f, s + [x]) == SumBag(f, s) + f(x)
  {
    assert (s + [x])[..|s|] == s;
  }

  lemma {:induction false} SumBagUpdate<T, R>(f: T -> multiset<R>, s: seq<T>, i: nat, v: T)
    requires i < |s|
    ensures f(s[i]) <= SumBag(f, s)
    ensures SumBag(f, s[i := v]) == SumBag(f, s) - f(s[i]) + f(v)
  {
    var n := |s| - 1;
    if i == n {
      assert s[i := v][..n] == s[..n];
    } else {
      SumBagUpdate(f, s[..n], i, v);
      assert s[i := v][..n] == s[..n][i := v];
    }
  }

  lemma {:induction false} SumBagRemove<T, R>(f: T -> multiset<R>, s: seq<T>, i: nat)
    requires i < |s|
    ensures SumBag(f, s) == SumBag(f, s[..i] + s[i + 1..]) + f(s[i])
  {
    var n := |s| - 1;
    if i == n {
      assert s[..i] + s[i + 1..] == s[..n];
    } else {
      var t := s[..i] + s[i + 1..];
      assert t[..|t| - 1] == s[..n][..i] + s[..n][i + 1..] && t[|t| - 1] == s[n];
      SumBagRemove(f, s[..n], i);
    }
  }

  lemma {:induction false} BagOfRemove<T>(s: seq<T>, i: nat)
    requires i < |s|
    ensures multiset(s) == multiset(s[..i] + s[i + 1..]) + multiset{s[i]}
  {
    assert s == s[..i] + [s[i]] + s[i + 1..];
  }

  /** A sum of bags does not depend on the order of the elements. */
  lemma {:induction false} SumBagPermutation<T, R>(f: T -> multiset<R>, a: seq<T>, b: seq<T>)
    requires multiset(a) == multiset(b)
    ensures SumBag(f, a) == SumBag(f, b)
    decreases |a|
  {
    if a == [] {
      assert |b| == |multiset(b)|;
    } else {
      var n := |a| - 1;
      assert a[n] in multiset(a);
      assert a[n] in b;
      var i :| 0 <= i < |b| && b[i] == a[n];
      BagOfRemove(b, i);
      assert a == a[..n] + [a[n]];
      SumBagRemove(f, b, i);
      assert multiset(a[..n]) == multiset(b) - multiset{a[n]};
      SumBagPermutation(f, a[..n], b[..i] + b[i + 1..]);
    }
  }

  lemma {:induction false} SumBagAllEmpty<T, R>(f: T -> multiset<R>, s: seq<T>)
    requires forall i :: 0 <= i < |s| ==> f(s[i]) == multiset{}
    ensures SumBag(f, s) == multiset{}
  {
    if s != [] {
      SumBagAllEmpty(f, s[..|s| - 1]);
    }
  }

  lemma {:induction false} SumBagAppend<T, R>(f: T -> multiset<R>, a: seq<T>, b: seq<T>)
    ensures SumBag(f, a + b) == SumBag(f, a) + SumBag(f, b)
  {
    if b == [] {
      assert a + b == a;
    } else {
      assert (a + b)[..|a + b| - 1] == a + b[..|b| - 1];
      SumBagAppend(f, a, b[..|b| - 1]);
    }
  }

  /** Flattening and then forgetting the order is summing the bags. */
  lemma {:induction false} BagOfFlatMap<T, R>(f: T -> seq<R>, g: T -> multiset<R>, s: seq<T>)
    requires forall x :: x in s ==> g(x) == multiset(f(x))
    ensures multiset(FlatMap(f, s)) == SumBag(g, s)
  {
    if s != [] {
      BagOfFlatMap(f, g, s[..|s| - 1]);
    }
  }
}
