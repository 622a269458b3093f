/** The djb2 hash of src/reducer.c:115-121, computed in wrapping unsigned long arithmetic. */
module Hash {
  import opened Wire

  /** unsigned long is 64 bits wide (LP64). */
  const WORD: int := LIMIT

  /** MR_REDUCER_HASH_TABLE_SIZE. */
  const DEFAULT_TABLE_SIZE: nat := 1024

  // ---------------------------------------------------------------- the specification

  /** x and y differ by a multiple of m. */
  ghost predicate Congruent(x: int, y: int, m: int)
  {
    exists k: int :: Multiple(x, y, k, m)
  }

  ghost predicate Multiple(x: int, y: int, k: int, m: int)
  {
    x == y + k * m
  }

  /** The value of a char with this byte: plain char is signed or unsigned, and holds the byte modulo 256. */
  ghost predicate IsChar(c: int, b: Byte, signed: bool)
  {
    (if signed then -128 <= c < 128 else 0 <= c < 256) && Congruent(c, b, 256)
  }

  ghost predicate AreChars(cs: seq<int>, s: seq<Byte>, signed: bool)
  {
    |cs| == |s| && forall i :: 0 <= i < |s| ==> IsChar(cs[i], s[i], signed)
  }

  ghost function Power33(k: nat): nat { if k == 0 then 1 else 33 * Power33(k - 1) }

  /** c0 * 33^(n-1) + c1 * 33^(n-2) + ... + c(n-1). */
  ghost function Weighted(cs: seq<int>): int
  {
    if cs == [] then 0 else cs[0] * Power33(|cs| - 1) + Weighted(cs[1..])
  }

  /** djb2 in closed form. */
  ghost function Polynomial(cs: seq<int>): int { 5381 * Power33(|cs|) + Weighted(cs) }

  /** The bucket b is where the token belongs: the djb2 of its chars, reduced to an unsigned long, modulo the size. */
  ghost predicate Belongs(s: seq<Byte>, signed: bool, size: nat, b: nat)
    requires size > 0
  {
    exists cs, w: nat ::
      AreChars(cs, s, signed) && w < WORD && Congruent(w, Polynomial(cs), WORD) && b == w % size
  }

  // ---------------------------------------------------------------- the computation

  /** The int a char is converted to. */
  function CharValue(b: Byte, signed: bool): (c: int)
    ensures IsChar(c, b, signed)
  {
    assert Multiple(b - 256, b, -1, 256) && Multiple(b, b, 0, 256);
    if signed && b >= 128 then b - 256 else b
  }

  /** djb2 over unbounded integers. */
  function Djb2(s: seq<Byte>, signed: bool): int
  {
    if s == [] then 5381 else Djb2(s[..|s| - 1], signed) * 33 + CharValue(s[|s| - 1], signed)
  }

  /** One turn of the loop in unsigned long: each operation wraps, and the int is converted modulo 2^64. */
  function Mix(hash: nat, c: int): (h: nat)
    ensures h < WORD
  {
    var shifted := (hash * 32) % WORD;
    var sum := (shifted + hash) % WORD;
    (sum + c % WORD) % WORD
  }

  function HashWord(s: seq<Byte>, signed: bool): (h: nat)
    ensures h < WORD
  {
    if s == [] then 5381 else Mix(HashWord(s[..|s| - 1], signed), CharValue(s[|s| - 1], signed))
  }

  function Bucket(s: seq<Byte>, signed: bool, size: nat): (b: nat)
    requires size > 0
    ensures b < size
  {
    HashWord(s, signed) % size
  }

  /** The loop of hash_function. */
  method HashFunction(str: CString, signed: bool, size: nat) returns (b: nat)
    requires size > 0
    ensures b == Bucket(str, signed, size) && Belongs(str, signed, size, b)
  {
    var hash := 5381;
    var i := 0;
    while i < |str|
      invariant i <= |str|
      invariant hash == HashWord(str[..i], signed)
    {
      assert str[..i + 1][..i] == str[..i];
      hash := Mix(hash, CharValue(str[i], signed));
      i := i + 1;
    }
    assert str[..i] == str;
    b := hash % size;
    BucketBelongs(str, signed, size);
  }

  // ---------------------------------------------------------------- modular arithmetic

  lemma CongruentStep(x: int, y: int, c: int, d: int, m: int)
    requires Congruent(x, y, m) && Congruent(c, d, m)
    ensures Congruent(x * 33 + c, y * 33 + d, m)
  {
    var k :| Multiple(x, y, k, m);
    var l :| Multiple(c, d, l, m);
    assert x * 33 + c == y * 33 + d + (k * 33 + l) * m;
    assert Multiple(x * 33 + c, y * 33 + d, k * 33 + l, m);
  }

  lemma CongruentTrans(x: int, y: int, z: int, m: int)
    requires Congruent(x, y, m) && Congruent(y, z, m)
    ensures Congruent(x, z, m)
  {
    var k :| Multiple(x, y, k, m);
    var l :| Multiple(y, z, l, m);
    assert x == z + (k + l) * m;
    assert Multiple(x, z, k + l, m);
  }

  lemma MixCongruent(hash: nat, c: int)
    ensures Congruent(Mix(hash, c), hash * 33 + c, WORD)
  {
    var a := hash * 32;
    var s := a % WORD + hash;
    var t := s % WORD + c % WORD;
    var k := a / WORD + s / WORD + c / WORD + t / WORD;
    assert a == a / WORD * WORD + a % WORD && s == s / WORD * WORD + s % WORD;
    assert c == c / WORD * WORD + c % WORD && t == t / WORD * WORD + t % WORD;
    assert Multiple(Mix(hash, c), hash * 33 + c, -k, WORD);
  }

  /** The wrapped hash is djb2 modulo 2^64, also for negative chars. */
  lemma {:induction false} HashWordCongruent(s: seq<Byte>, signed: bool)
    ensures Congruent(HashWord(s, signed), Djb2(s, signed), WORD)
  {
    if s == [] {
      assert Multiple(HashWord(s, signed), Djb2(s, signed), 0, WORD);
    } else {
      var n := |s| - 1;
      var c := CharValue(s[n], signed);
      HashWordCongruent(s[..n], signed);
      MixCongruent(HashWord(s[..n], signed), c);
      assert Multiple(c, c, 0, WORD);
      CongruentStep(HashWord(s[..n], signed), Djb2(s[..n], signed), c, c, WORD);
      CongruentTrans(HashWord(s, signed), HashWord(s[..n], signed) * 33 + c, Djb2(s, signed), WORD);
    }
  }

  lemma {:induction false} RemainderUnique(q: int, r: int, m: int)
    requires m > 0 && 0 <= r < m
    ensures (q * m + r) % m == r
  {
    var x := q * m + r;
    assert x == x / m * m + x % m;
    assert (x / m - q) * m == r - x % m;
    if x / m > q {
      MulAtLeast(x / m - q, m);
    } else if x / m < q {
      MulAtLeast(q - x / m, m);
    }
  }

  lemma MulAtLeast(k: int, m: int)
    requires k >= 1 && m > 0
    ensures k * m >= m
  {
    assert (k - 1) * m >= 0;
  }

  lemma CongruentSameRemainder(x: int, y: int, m: int)
    requires m > 0
    ensures Congruent(x, y, m) <==> x % m == y % m
  {
    if Congruent(x, y, m) {
      var k :| Multiple(x, y, k, m);
      assert y == y / m * m + y % m;
      assert x == (y / m + k) * m + y % m;
      RemainderUnique(y / m + k, y % m, m);
    }
    if x % m == y % m {
      assert x == x / m * m + x % m && y == y / m * m + y % m;
      assert x == y + (x / m - y / m) * m;
      assert Multiple(x, y, x / m - y / m, m);
    }
  }

  // ---------------------------------------------------------------- the computation meets the specification

  lemma CharsAreUnique(c: int, b: Byte, signed: bool)
    requires IsChar(c, b, signed)
    ensures c == CharValue(b, signed)
  {
    var k :| Multiple(c, b, k, 256);
    assert c == b + k * 256;
  }

  lemma {:induction false} WeightedSnoc(cs: seq<int>, c: int)
    ensures Weighted(cs + [c]) == Weighted(cs) * 33 + c
  {
    if cs == [] {
      assert (cs + [c])[1..] == [];
    } else {
      assert (cs + [c])[1..] == cs[1..] + [c];
      WeightedSnoc(cs[1..], c);
      assert cs[0] * Power33(|cs|) == cs[0] * Power33(|cs| - 1) * 33;
    }
  }

  lemma {:induction false} Djb2IsPolynomial(s: seq<Byte>, signed: bool, cs: seq<int>)
    requires AreChars(cs, s, signed)
    ensures Djb2(s, signed) == Polynomial(cs)
  {
    if s != [] {
      var n := |s| - 1;
      Djb2IsPolynomial(s[..n], signed, cs[..n]);
      CharsAreUnique(cs[n], s[n], signed);
      assert cs == cs[..n] + [cs[n]];
      WeightedSnoc(cs[..n], cs[n]);
    }
  }

  ghost function CharsOf(s: seq<Byte>, signed: bool): (cs: seq<int>)
    ensures AreChars(cs, s, signed)
  {
    seq(|s|, i requires 0 <= i < |s| => CharValue(s[i], signed))
  }

  lemma BucketBelongs(s: seq<Byte>, signed: bool, size: nat)
    requires size > 0
    ensures Belongs(s, signed, size, Bucket(s, signed, size))
  {
    var cs := CharsOf(s, signed);
    Djb2IsPolynomial(s, signed, cs);
    HashWordCongruent(s, signed);
    hide AreChars, Polynomial, HashWord, Djb2;
    assert Congruent(HashWord(s, signed), Polynomial(cs), WORD);
  }

  lemma ReducedIsSame(w: nat, h: nat, d: int)
    requires w < WORD && h < WORD && Congruent(w, d, WORD) && Congruent(h, d, WORD)
    ensures w == h
  {
    CongruentSameRemainder(w, d, WORD);
    CongruentSameRemainder(h, d, WORD);
    RemainderUnique(0, w, WORD);
    RemainderUnique(0, h, WORD);
  }

  /** A token belongs to one bucket. */
  lemma BelongsOnce(s: seq<Byte>, signed: bool, size: nat, b: nat)
    requires size > 0 && Belongs(s, signed, size, b)
    ensures b == Bucket(s, signed, size)
  {
    var cs, w: nat :| AreChars(cs, s, signed) && w < WORD && Congruent(w, Polynomial(cs), WORD) && b == w % size;
    hide Djb2, HashWord, Polynomial, AreChars, Congruent;
    Djb2IsPolynomial(s, signed, cs);
    HashWordCongruent(s, signed);
    ReducedIsSame(w, HashWord(s, signed), Djb2(s, signed));
  }

  /** Where the size divides 2^64, that is its djb2 modulo the size. */
  lemma BelongsByDjb2(s: seq<Byte>, signed: bool, size: nat, b: nat)
    requires size > 0 && WORD % size == 0
    ensures Belongs(s, signed, size, b) <==> b == Djb2(s, signed) % size
  {
    hide Djb2, HashWord, Belongs;
    HashWordCongruent(s, signed);
    CongruentDivisor(HashWord(s, signed), Djb2(s, signed), WORD, size);
    CongruentSameRemainder(HashWord(s, signed), Djb2(s, signed), size);
    BucketBelongs(s, signed, size);
    if Belongs(s, signed, size, b) { BelongsOnce(s, signed, size, b); }
  }

  lemma Djb2Snoc(s: seq<Byte>, b: Byte, signed: bool)
    ensures Djb2(s + [b], signed) == Djb2(s, signed) * 33 + CharValue(b, signed)
  {
    assert (s + [b])[..|s|] == s;
  }

  /** "a" and the UTF-8 form of e with a grave accent, in the default table. */
  lemma KnownBuckets(b: nat, signed: bool)
    ensures Belongs([97], signed, 1024, b) <==> b == 518
    ensures Belongs([195, 168], signed, 1024, b) <==> b == if signed then 528 else 16
  {
    assert [] + [97] == [97] && [] + [195] == [195] && [195] + [168] == [195, 168];
    Djb2Snoc([], 97, signed);
    Djb2Snoc([], 195, signed);
    Djb2Snoc([195], 168, signed);
    assert Djb2([], signed) == 5381;
    hide Djb2, Belongs;
    BelongsByDjb2([97], signed, 1024, b);
    BelongsByDjb2([195, 168], signed, 1024, b);
  }

  /** The bucket is the djb2 of the unbounded integers modulo the table size. */
  ghost predicate ExactHash(signed: bool, size: nat)
    requires size > 0
  {
    forall s: CString, cs :: AreChars(cs, s, signed) ==> Bucket(s, signed, size) == Polynomial(cs) % size
  }

  lemma ExactIsDjb2(signed: bool, size: nat)
    requires size > 0
    ensures ExactHash(signed, size) <==> forall s: CString :: Bucket(s, signed, size) == Djb2(s, signed) % size
  {
    if ExactHash(signed, size) {
      forall s: CString ensures Bucket(s, signed, size) == Djb2(s, signed) % size {
        Djb2IsPolynomial(s, signed, CharsOf(s, signed));
      }
    }
    forall s: CString, cs | AreChars(cs, s, signed) ensures Polynomial(cs) == Djb2(s, signed) {
      Djb2IsPolynomial(s, signed, cs);
    }
  }

  function Repeat(b: Byte, n: nat): seq<Byte>
  {
    if n == 0 then [] else Repeat(b, n - 1) + [b]
  }

  function Djb2Repeat(b: Byte, n: nat): int
  {
    if n == 0 then 5381 else Djb2Repeat(b, n - 1) * 33 + b
  }

  lemma {:induction false} Djb2OfRepeat(b: Byte, n: nat, signed: bool)
    requires 0 < b < 128
    ensures |Repeat(b, n)| == n && 0 !in Repeat(b, n)
    ensures Djb2(Repeat(b, n), signed) == Djb2Repeat(b, n)
  {
    if n > 0 {
      Djb2OfRepeat(b, n - 1, signed);
      assert Repeat(b, n)[..n - 1] == Repeat(b, n - 1);
    }
  }

  /** "aaaaaaaaaaa" wraps 14 times and "0000000000000" 16059 times; 16059 = 1147 * 14 + 1. */
  lemma TwoWitnesses()
    ensures 14 * WORD <= Djb2Repeat(97, 11) < 15 * WORD
    ensures 16059 * WORD <= Djb2Repeat(48, 13) < 16060 * WORD
  {
  }

  lemma WrapsBy(s: CString, signed: bool, size: nat, k: nat)
    requires size > 0 && ExactHash(signed, size)
    requires k * WORD <= Djb2(s, signed) < (k + 1) * WORD
    ensures Congruent(k * WORD, 0, size)
  {
    var d, h := Djb2(s, signed), HashWord(s, signed);
    HashWordCongruent(s, signed);
    ExactIsDjb2(signed, size);
    CongruentSameRemainder(h, d, WORD);
    RemainderUnique(k, d - k * WORD, WORD);
    RemainderUnique(0, h, WORD);
    assert h == d - k * WORD;
    assert Bucket(s, signed, size) == d % size;
    CongruentSameRemainder(h, d, size);
    var l :| Multiple(h, d, l, size);
    assert k * WORD == 0 + -l * size;
    assert Multiple(k * WORD, 0, -l, size);
  }

  lemma CongruentDivisor(x: int, y: int, m: int, size: int)
    requires size > 0 && m % size == 0 && Congruent(x, y, m)
    ensures Congruent(x, y, size)
  {
    var k :| Multiple(x, y, k, m);
    var d := m / size;
    assert m == d * size;
    assert k * m == (k * d) * size;
    assert Multiple(x, y, k * d, size);
  }

  lemma CongruentCombination(m: int, size: int)
    requires size > 0 && Congruent(14 * m, 0, size) && Congruent(16059 * m, 0, size)
    ensures m % size == 0
  {
    var a :| Multiple(14 * m, 0, a, size);
    var b :| Multiple(16059 * m, 0, b, size);
    assert m == (b - 1147 * a) * size;
    RemainderUnique(b - 1147 * a, 0, size);
  }

  /** Wrapping is harmless exactly when the table size divides 2^64: it is for the default of 1024 and every other
      power of two up to 2^64, and for no other size. */
  lemma HashIsExactIffSizeDividesWord(signed: bool, size: nat)
    requires size > 0
    ensures ExactHash(signed, size) <==> WORD % size == 0
  {
    ExactIsDjb2(signed, size);
    if WORD % size == 0 {
      forall s: CString ensures Bucket(s, signed, size) == Djb2(s, signed) % size {
        HashWordCongruent(s, signed);
        CongruentDivisor(HashWord(s, signed), Djb2(s, signed), WORD, size);
        CongruentSameRemainder(HashWord(s, signed), Djb2(s, signed), size);
      }
    }
    if ExactHash(signed, size) {
      TwoWitnesses();
      Djb2OfRepeat(97, 11, signed);
      Djb2OfRepeat(48, 13, signed);
      hide Djb2Repeat, Repeat;
      WrapsBy(Repeat(97, 11), signed, size, 14);
      WrapsBy(Repeat(48, 13), signed, size, 16059);
      CongruentCombination(WORD, size);
    }
  }

  lemma DefaultSizeIsExact(signed: bool)
    ensures ExactHash(signed, DEFAULT_TABLE_SIZE)
  {
    HashIsExactIffSizeDividesWord(signed, DEFAULT_TABLE_SIZE);
  }
}
