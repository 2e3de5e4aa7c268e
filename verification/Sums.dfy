/** Sums over sequences: order does not matter, and summing class by class gives the whole. */
module Sums {
  import opened Collections

  function SumBy<T>(s: seq<T>, f: T -> int): int {
    if s == [] then 0 else SumBy(s[..|s| - 1], f) + f(s[|s| - 1])
  }

  lemma SumBySnoc<T>(s: seq<T>, x: T, f: T -> int)
    ensures SumBy(s + [x], f) == SumBy(s, f) + f(x)
  {
    assert (s + [x])[..|s|] == s;
  }

  lemma {:induction false} SumByConcat<T>(a: seq<T>, b: seq<T>, f: T -> int)
    ensures SumBy(a + b, f) == SumBy(a, f) + SumBy(b, f)
  {
    if b == [] {
      assert a + b == a;
    } else {
      var init, x := b[..|b| - 1], b[|b| - 1];
      SumByConcat(a, init, f);
      assert a + b == (a + init) + [x] && b == init + [x];
      SumBySnoc(a + init, x, f);
      SumBySnoc(init, x, f);
      hide SumBy;
    }
  }

  lemma {:induction false} SumByCongruent<T>(s: seq<T>, f: T -> int, g: T -> int)
    requires forall x :: x in s ==> f(x) == g(x)
    ensures SumBy(s, f) == SumBy(s, g)
  {
    if s != [] {
      SumByCongruent(s[..|s| - 1], f, g);
    }
  }

  function Without<T>(s: seq<T>, i: nat): seq<T>
    requires i < |s|
  {
    s[..i] + s[i + 1..]
  }

  lemma WithoutMultiset<T>(s: seq<T>, i: nat)
    requires i < |s|
    ensures multiset(s) == multiset(Without(s, i)) + multiset{s[i]}
  {
    assert s == s[..i] + [s[i]] + s[i + 1..];
  }

  lemma SumByWithout<T>(s: seq<T>, i: nat, f: T -> int)
    requires i < |s|
    ensures SumBy(s, f) == SumBy(Without(s, i), f) + f(s[i])
  {
    hide SumBy;
    var a, x, b := s[..i], s[i], s[i + 1..];
    assert s == (a + [x]) + b;
    SumByConcat(a + [x], b, f);
    SumBySnoc(a, x, f);
    SumByConcat(a, b, f);
  }

  /** The position in `b` of the last element of its permutation `a`, and that the rests are permutations too. */
  lemma PermutationStep<T>(a: seq<T>, b: seq<T>) returns (i: nat)
    requires a != [] && multiset(a) == multiset(b)
    ensures i < |b| && b[i] == a[|a| - 1] && multiset(a[..|a| - 1]) == multiset(Without(b, i))
  {
    var x := a[|a| - 1];
    assert a == a[..|a| - 1] + [x];
    assert x in multiset(b);
    i :| 0 <= i < |b| && b[i] == x;
    WithoutMultiset(b, i);
    assert multiset(a[..|a| - 1]) == multiset(a) - multiset{x};
  }

  lemma {:induction false} SumByPermutes<T>(a: seq<T>, b: seq<T>, f: T -> int)
    requires multiset(a) == multiset(b)
    ensures SumBy(a, f) == SumBy(b, f)
  {
    if a == [] {
      assert |multiset(b)| == 0;
    } else {
      var i := PermutationStep(a, b);
      SumByPermutes(a[..|a| - 1], Without(b, i), f);
      SumByWithout(b, i, f);
    }
  }

  function Flatten<S, T>(s: seq<S>, parts: S -> seq<T>): seq<T> {
    if s == [] then [] else Flatten(s[..|s| - 1], parts) + parts(s[|s| - 1])
  }

  lemma FlattenSnoc<S, T>(s: seq<S>, x: S, parts: S -> seq<T>)
    ensures Flatten(s + [x], parts) == Flatten(s, parts) + parts(x)
  {
    assert (s + [x])[..|s|] == s;
  }

  lemma Reassociate<T>(a: seq<T>, b: seq<T>, c: seq<T>)
    ensures (a + b) + c == a + (b + c)
  {
  }

  lemma {:induction false} FlattenConcat<S, T>(a: seq<S>, b: seq<S>, parts: S -> seq<T>)
    ensures Flatten(a + b, parts) == Flatten(a, parts) + Flatten(b, parts)
  {
    if b == [] {
      assert a + b == a;
    } else {
      hide Flatten;
      var init, x := b[..|b| - 1], b[|b| - 1];
      FlattenConcat(a, init, parts);
      assert a + b == (a + init) + [x] && b == init + [x];
      FlattenSnoc(a + init, x, parts);
      FlattenSnoc(init, x, parts);
      Reassociate(Flatten(a, parts), Flatten(init, parts), parts(x));
    }
  }

  lemma {:induction false} FlattenPermutes<S, T>(a: seq<S>, b: seq<S>, parts: S -> seq<T>)
    requires multiset(a) == multiset(b)
    ensures multiset(Flatten(a, parts)) == multiset(Flatten(b, parts))
  {
    if a == [] {
      assert |multiset(b)| == 0;
    } else {
      var i := PermutationStep(a, b);
      FlattenPermutes(a[..|a| - 1], Without(b, i), parts);
      FlattenWithout(b, i, parts);
    }
  }

  lemma FlattenWithout<S, T>(s: seq<S>, i: nat, parts: S -> seq<T>)
    requires i < |s|
    ensures multiset(Flatten(s, parts)) == multiset(Flatten(Without(s, i), parts)) + multiset(parts(s[i]))
  {
    hide Flatten;
    var a, x, b := s[..i], s[i], s[i + 1..];
    assert s == (a + [x]) + b;
    FlattenConcat(a + [x], b, parts);
    FlattenSnoc(a, x, parts);
    FlattenConcat(a, b, parts);
  }

  // ---- Summing class by class ----

  /** `weight` on the elements of class `k`, 0 elsewhere. */
  function Restrict<T>(keyOf: T -> string, weight: T -> int, k: string): T -> int {
    t => if keyOf(t) == k then weight(t) else 0
  }

  function ClassTotal<T>(s: seq<T>, keyOf: T -> string, weight: T -> int, k: string): int {
    SumBy(s, Restrict(keyOf, weight, k))
  }

  function Totals<T>(s: seq<T>, keyOf: T -> string, weight: T -> int): string -> int {
    k => ClassTotal(s, keyOf, weight, k)
  }

  /** Functions that differ at one element of a list without repetitions. */
  lemma {:induction false} SumByPoint<T>(s: seq<T>, f: T -> int, g: T -> int, x: T)
    requires Distinct(s) && x in s
    requires forall y :: y in s && y != x ==> f(y) == g(y)
    ensures SumBy(s, g) == SumBy(s, f) - f(x) + g(x)
  {
    var i :| 0 <= i < |s| && s[i] == x;
    SumByWithout(s, i, f);
    SumByWithout(s, i, g);
    forall y | y in Without(s, i) ensures f(y) == g(y) {
      assert y in s[..i] || y in s[i + 1..];
    }
    SumByCongruent(Without(s, i), f, g);
  }

  lemma {:induction false} ZeroSum<T>(s: seq<T>, f: T -> int)
    requires forall x :: x in s ==> f(x) == 0
    ensures SumBy(s, f) == 0
  {
    if s != [] {
      ZeroSum(s[..|s| - 1], f);
    }
  }

  lemma {:induction false} PartitionSum<T>(keys: seq<string>, s: seq<T>, keyOf: T -> string, weight: T -> int)
    requires Distinct(keys) && forall t :: t in s ==> keyOf(t) in keys
    ensures SumBy(keys, Totals(s, keyOf, weight)) == SumBy(s, weight)
  {
    if s == [] {
      ZeroSum(keys, Totals(s, keyOf, weight));
    } else {
      var init, x := s[..|s| - 1], s[|s| - 1];
      PartitionSum(keys, init, keyOf, weight);
      var f, g := Totals(init, keyOf, weight), Totals(s, keyOf, weight);
      forall k ensures g(k) == f(k) + (if keyOf(x) == k then weight(x) else 0) {
      }
      SumByPoint(keys, f, g, keyOf(x));
    }
  }
}
