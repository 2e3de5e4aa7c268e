/** Sums of real weights over sequences, and weighted means. */
module Averages {
  import opened Sums

  function RealSum<T>(s: seq<T>, f: T -> real): real {
    if s == [] then 0.0 else RealSum(s[..|s| - 1], f) + f(s[|s| - 1])
  }

  lemma RealSumSnoc<T>(s: seq<T>, x: T, f: T -> real)
    ensures RealSum(s + [x], f) == RealSum(s, f) + f(x)
  {
    assert (s + [x])[..|s|] == s;
  }

  lemma {:induction false} RealSumConcat<T>(a: seq<T>, b: seq<T>, f: T -> real)
    ensures RealSum(a + b, f) == RealSum(a, f) + RealSum(b, f)
  {
    if b == [] {
      assert a + b == a;
    } else {
      var init, x := b[..|b| - 1], b[|b| - 1];
      RealSumConcat(a, init, f);
      assert a + b == (a + init) + [x] && b == init + [x];
      RealSumSnoc(a + init, x, f);
      RealSumSnoc(init, x, f);
      hide RealSum;
    }
  }

  lemma RealSumWithout<T>(s: seq<T>, i: nat, f: T -> real)
    requires i < |s|
    ensures RealSum(s, f) == RealSum(Without(s, i), f) + f(s[i])
  {
    hide RealSum;
    var a, x, b := s[..i], s[i], s[i + 1..];
    assert s == (a + [x]) + b;
    RealSumConcat(a + [x], b, f);
    RealSumSnoc(a, x, f);
    RealSumConcat(a, b, f);
  }

  lemma {:induction false} RealSumPermutes<T>(a: seq<T>, b: seq<T>, f: T -> real)
    requires multiset(a) == multiset(b)
    ensures RealSum(a, f) == RealSum(b, f)
  {
    if a == [] {
      assert |multiset(b)| == 0;
    } else {
      var i := PermutationStep(a, b);
      RealSumPermutes(a[..|a| - 1], Without(b, i), f);
      RealSumWithout(b, i, f);
    }
  }

  /** Pointwise bounds by a multiple of the weight carry over to the sums. */
  lemma {:induction false} RealSumBounds<T>(s: seq<T>, share: T -> real, weight: T -> real, low: real, high: real)
    requires forall x :: x in s ==> low * weight(x) <= share(x) <= high * weight(x)
    ensures low * RealSum(s, weight) <= RealSum(s, share) <= high * RealSum(s, weight)
  {
    if s != [] {
      var init, x := s[..|s| - 1], s[|s| - 1];
      RealSumBounds(init, share, weight, low, high);
      assert x in s;
      Distribute(low, RealSum(init, weight), weight(x));
      Distribute(high, RealSum(init, weight), weight(x));
    }
  }

  lemma Distribute(k: real, a: real, b: real)
    ensures k * (a + b) == k * a + k * b
  {
  }

  lemma {:induction false} RealSumPositive<T>(s: seq<T>, weight: T -> real)
    requires s != [] && forall x :: x in s ==> weight(x) > 0.0
    ensures RealSum(s, weight) > 0.0
  {
    var init, x := s[..|s| - 1], s[|s| - 1];
    assert x in s;
    if init != [] {
      RealSumPositive(init, weight);
    }
  }

  lemma MeanBounds(low: real, high: real, total: real, weight: real)
    requires weight > 0.0 && low * weight <= total <= high * weight
    ensures low <= total / weight <= high
  {
    var mean := total / weight;
    assert mean * weight == total;
    CancelFactor(low, mean, weight);
    CancelFactor(mean, high, weight);
  }

  lemma CancelFactor(a: real, b: real, factor: real)
    requires factor > 0.0 && a * factor <= b * factor
    ensures a <= b
  {
    assert (b - a) * factor >= 0.0;
  }
}
