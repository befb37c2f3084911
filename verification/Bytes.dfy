/** Byte strings and the few sequence facts that every other module uses. */
module Bytes {

  type Byte = x: int | 0 <= x < 256

  type Data = seq<Byte>

  datatype Option<+T> = None | Some(value: T)

  function Min(a: int, b: int): int {
    if a <= b then a else b
  }

  function Max(a: int, b: int): int {
    if a <= b then b else a
  }

  /**
   * The product `k * x` as repeated addition. Offsets and checksums are built from products;
   * this form keeps nonlinear arithmetic out of the proofs about them.
   */
  function Times(k: nat, x: int): int {
    if k == 0 then 0 else Times(k - 1, x) + x
  }

  lemma {:induction false} TimesIsProduct(k: nat, x: int)
    ensures Times(k, x) == k * x
  {
    if k != 0 {
      TimesIsProduct(k - 1, x);
      assert (k - 1) * x + x == k * x;
    }
  }

  lemma {:induction false} TimesDistributes(k: nat, x: int, y: int)
    ensures Times(k, x) + Times(k, y) == Times(k, x + y)
  {
    if k != 0 {
      TimesDistributes(k - 1, x, y);
    }
  }

  /** Multiples of `x` at different positions are at least `x` apart. */
  lemma {:induction false} TimesApart(i: nat, j: nat, x: nat)
    requires i < j
    ensures 0 <= Times(i, x) && Times(i, x) + x <= Times(j, x)
  {
    if i == j - 1 {
      TimesNonNegative(i, x);
    } else {
      TimesApart(i, j - 1, x);
    }
  }

  lemma {:induction false} TimesNonNegative(i: nat, x: nat)
    ensures 0 <= Times(i, x)
  {
    if i > 0 {
      TimesNonNegative(i - 1, x);
    }
  }

  /** Quotient and remainder are unique. */
  lemma RemainderIs(x: nat, n: nat, q: nat, r: nat)
    requires r < n && x == q * n + r
    ensures x % n == r
  {
    TimesIsProduct(q, n);
    TimesIsProduct(x / n, n);
    assert x == x / n * n + x % n;
    if q < x / n {
      TimesApart(q, x / n, n);
    } else if x / n < q {
      TimesApart(x / n, q, n);
    }
  }

  /** Dropping a front part and then slicing or dropping again. */
  lemma DropThen<T>(s: seq<T>, i: nat, n: nat)
    requires i + n <= |s|
    ensures s[i..][..n] == s[i..i + n] && s[i..][n..] == s[i + n..]
  {
  }

  /** One more element of a prefix. */
  lemma TakeSnoc<T>(s: seq<T>, k: nat)
    requires k < |s|
    ensures s[..k + 1] == s[..k] + [s[k]] && s[..k + 1][..k] == s[..k]
    ensures forall x | x in s[..k + 1] :: x in s[..k] || x == s[k]
    ensures forall x | x in s[..k] :: x in s[..k + 1]
  {
  }

  /** The chunks of a stream joined in order. */
  function Flatten<T>(chunks: seq<seq<T>>): seq<T> {
    if chunks == [] then [] else chunks[0] + Flatten(chunks[1..])
  }

  lemma {:induction false} FlattenAppend<T>(a: seq<seq<T>>, b: seq<seq<T>>)
    ensures Flatten(a + b) == Flatten(a) + Flatten(b)
  {
    if a == [] {
      assert a + b == b;
    } else {
      FlattenAppend(a[1..], b);
      assert (a + b)[0] == a[0] && (a + b)[1..] == a[1..] + b;
      Associative(a[0], Flatten(a[1..]), Flatten(b));
    }
  }

  lemma Associative<T>(x: seq<T>, y: seq<T>, z: seq<T>)
    ensures x + (y + z) == (x + y) + z
  {
  }

  lemma FlattenSnoc<T>(a: seq<seq<T>>, c: seq<T>)
    ensures Flatten(a + [c]) == Flatten(a) + c
  {
    FlattenAppend(a, [c]);
    assert Flatten([c]) == c + Flatten([]);
  }

  /** Every element of `s` occurs once. */
  predicate Distinct<T(==)>(s: seq<T>) {
    forall i, j :: 0 <= i < j < |s| ==> s[i] != s[j]
  }

  /** `s` lists the members of `keys`, each once. */
  ghost predicate Lists<T>(s: seq<T>, keys: set<T>) {
    Distinct(s) && (forall k | k in keys :: k in s) && (forall k | k in s :: k in keys)
  }
}
