/** The insertion sort behind Go's sort.SliceStable (slices of up to 20 elements), and what it
    guarantees when the comparator is not a strict weak order. */
module StableSort {

  /** Moves `x` left past every neighbour it precedes. */
  function InsertLast<T>(sorted: seq<T>, x: T, less: (T, T) -> bool): (r: seq<T>)
    ensures |r| == |sorted| + 1
  {
    if sorted == [] || !less(x, sorted[|sorted| - 1]) then sorted + [x]
    else InsertLast(sorted[..|sorted| - 1], x, less) + [sorted[|sorted| - 1]]
  }

  function Sort<T>(s: seq<T>, less: (T, T) -> bool): (r: seq<T>)
    ensures |r| == |s|
  {
    if s == [] then [] else InsertLast(Sort(s[..|s| - 1], less), s[|s| - 1], less)
  }

  /** `s` with element `i` moved left to position `j`. */
  ghost function Moved<T>(s: seq<T>, i: nat, j: nat): (r: seq<T>)
    requires j <= i < |s|
    ensures |r| == |s| && r[j] == s[i] && (j > 0 ==> r[j - 1] == s[j - 1])
  {
    s[..j] + [s[i]] + s[j..i] + s[i + 1..]
  }

  lemma MovedStart<T>(s: seq<T>, i: nat)
    requires i < |s|
    ensures Moved(s, i, i) == s
  {
  }

  lemma MovedStep<T>(s: seq<T>, i: nat, j: nat)
    requires 0 < j <= i < |s|
    ensures var r := Moved(s, i, j); r[j := r[j - 1]][j - 1 := r[j]] == Moved(s, i, j - 1)
  {
  }

  lemma MovedParts<T>(s: seq<T>, i: nat, j: nat)
    requires j <= i < |s|
    ensures Moved(s, i, j)[..i + 1] == s[..i][..j] + [s[i]] + s[..i][j..]
    ensures Moved(s, i, j)[i + 1..] == s[i + 1..]
  {
  }

  /** `x` goes left of exactly the elements it precedes, up to the first it does not. */
  lemma {:induction false} InsertLastStops<T>(sorted: seq<T>, x: T, less: (T, T) -> bool, j: nat)
    requires j <= |sorted| && (j == 0 || !less(x, sorted[j - 1]))
    requires forall k :: j <= k < |sorted| ==> less(x, sorted[k])
    ensures InsertLast(sorted, x, less) == sorted[..j] + [x] + sorted[j..]
  {
    if j < |sorted| {
      var init := sorted[..|sorted| - 1];
      InsertLastStops(init, x, less, j);
      assert init[..j] == sorted[..j] && init[j..] + [sorted[|sorted| - 1]] == sorted[j..];
    } else {
      assert sorted[..j] == sorted && sorted[j..] == [];
    }
  }

  method Swap<T>(a: array<T>, j: nat)
    requires 0 < j < a.Length
    modifies a
    ensures a[..] == old(a[..])[j := old(a[j - 1])][j - 1 := old(a[j])]
  {
    a[j], a[j - 1] := a[j - 1], a[j];
  }

  /** The inner loop: swap `a[i]` left while it precedes its neighbour. */
  method SwapIntoPlace<T>(a: array<T>, i: nat, less: (T, T) -> bool)
    requires i < a.Length
    modifies a
    ensures a[..i + 1] == InsertLast(old(a[..i]), old(a[i]), less)
    ensures a[i + 1..] == old(a[i + 1..])
  {
    hide InsertLast, Moved;
    ghost var was := a[..];
    var j := i;
    MovedStart(was, i);
    while j > 0 && less(a[j], a[j - 1])
      invariant 0 <= j <= i
      invariant a[..] == Moved(was, i, j)
      invariant forall k :: j <= k < i ==> less(was[i], was[k])
    {
      MovedStep(was, i, j);
      assert a[j] == a[..][j] && a[j - 1] == a[..][j - 1];
      Swap(a, j);
      j := j - 1;
    }
    assert a[j] == a[..][j] && (j > 0 ==> a[j - 1] == a[..][j - 1]);
    InsertLastStops(was[..i], was[i], less, j);
    MovedParts(was, i, j);
  }

  lemma SortOfOne<T>(x: T, less: (T, T) -> bool)
    ensures Sort([x], less) == [x]
  {
    assert [x][..0] == [];
  }

  lemma SortOfTwo<T>(x: T, y: T, less: (T, T) -> bool)
    ensures Sort([x, y], less) == if less(y, x) then [y, x] else [x, y]
  {
    assert [x, y][..1] == [x];
    SortOfOne(x, less);
    assert Sort([x, y], less) == InsertLast([x], y, less);
    assert [x][..0] == [];
  }

  /** The source's in-place sort. */
  method InsertionSort<T>(a: array<T>, less: (T, T) -> bool)
    modifies a
    ensures a[..] == Sort(old(a[..]), less)
  {
    ghost var was := a[..];
    for i := 0 to a.Length
      invariant a[..i] == Sort(was[..i], less)
      invariant a[i..] == was[i..]
    {
      assert a[i] == a[i..][0] == was[i];
      assert a[i + 1..] == a[i..][1..] == was[i + 1..];
      SwapIntoPlace(a, i, less);
      assert was[..i + 1][..i] == was[..i];
    }
    assert a[..] == a[..a.Length] && was[..a.Length] == was;
  }

  // ---- Permutation ----

  lemma {:induction false} InsertLastPermutes<T>(sorted: seq<T>, x: T, less: (T, T) -> bool)
    ensures multiset(InsertLast(sorted, x, less)) == multiset(sorted) + multiset{x}
  {
    if sorted != [] && less(x, sorted[|sorted| - 1]) {
      InsertLastPermutes(sorted[..|sorted| - 1], x, less);
      assert sorted == sorted[..|sorted| - 1] + [sorted[|sorted| - 1]];
    }
  }

  lemma {:induction false} SortPermutes<T>(s: seq<T>, less: (T, T) -> bool)
    ensures multiset(Sort(s, less)) == multiset(s)
  {
    if s != [] {
      SortPermutes(s[..|s| - 1], less);
      InsertLastPermutes(Sort(s[..|s| - 1], less), s[|s| - 1], less);
      assert s == s[..|s| - 1] + [s[|s| - 1]];
    }
  }

  lemma SortMembers<T>(s: seq<T>, less: (T, T) -> bool)
    ensures forall x :: x in Sort(s, less) <==> x in s
  {
    SortPermutes(s, less);
    forall x ensures x in Sort(s, less) <==> x in s {
      assert x in Sort(s, less) <==> x in multiset(Sort(s, less));
      assert x in s <==> x in multiset(s);
    }
  }

  // ---- Order ----

  ghost predicate Asymmetric<T(!new)>(less: (T, T) -> bool) {
    forall x, y :: less(x, y) ==> !less(y, x)
  }

  /** "Not after" is transitive: with asymmetry, a strict weak order. */
  ghost predicate Weak<T(!new)>(less: (T, T) -> bool) {
    Asymmetric(less) && forall x, y, z :: !less(y, x) && !less(z, y) ==> !less(z, x)
  }

  /** No element precedes its left neighbour. */
  ghost predicate NeighboursOrdered<T>(s: seq<T>, less: (T, T) -> bool) {
    forall i :: 0 <= i < |s| - 1 ==> !less(s[i + 1], s[i])
  }

  ghost predicate Ordered<T>(s: seq<T>, less: (T, T) -> bool) {
    forall i, j :: 0 <= i < j < |s| ==> !less(s[j], s[i])
  }

  lemma {:induction false} InsertLastOrders<T(!new)>(sorted: seq<T>, x: T, less: (T, T) -> bool)
    requires Asymmetric(less) && NeighboursOrdered(sorted, less)
    ensures var r := InsertLast(sorted, x, less);
      NeighboursOrdered(r, less) && (r[|r| - 1] == x || (sorted != [] && r[|r| - 1] == sorted[|sorted| - 1] && less(x, r[|r| - 1])))
  {
    if sorted != [] && less(x, sorted[|sorted| - 1]) {
      var n := |sorted| - 1;
      InsertLastOrders(sorted[..n], x, less);
      if n > 0 {
        assert !less(sorted[n - 1 + 1], sorted[n - 1]);
      }
    }
  }

  /** Asymmetry alone orders neighbours; transitivity is not needed. */
  lemma {:induction false} SortOrdersNeighbours<T(!new)>(s: seq<T>, less: (T, T) -> bool)
    requires Asymmetric(less)
    ensures NeighboursOrdered(Sort(s, less), less)
  {
    if s != [] {
      SortOrdersNeighbours(s[..|s| - 1], less);
      InsertLastOrders(Sort(s[..|s| - 1], less), s[|s| - 1], less);
    }
  }

  /** What is already in order stays as it is. */
  lemma {:induction false} OrderedStays<T>(s: seq<T>, less: (T, T) -> bool)
    requires NeighboursOrdered(s, less)
    ensures Sort(s, less) == s
  {
    if s != [] {
      var init, x := s[..|s| - 1], s[|s| - 1];
      assert forall i :: 0 <= i < |init| - 1 ==> !less(s[i + 1], s[i]);
      OrderedStays(init, less);
      if init != [] {
        assert !less(s[|s| - 2 + 1], s[|s| - 2]);
      }
      assert s == init + [x];
    }
  }

  lemma {:induction false} WeakChain<T(!new)>(s: seq<T>, less: (T, T) -> bool, i: nat, j: nat)
    requires Weak(less) && NeighboursOrdered(s, less) && i < j < |s|
    ensures !less(s[j], s[i])
    decreases j
  {
    if i + 1 < j {
      WeakChain(s, less, i, j - 1);
      assert !less(s[j - 1 + 1], s[j - 1]);
    }
  }

  lemma SortOrders<T(!new)>(s: seq<T>, less: (T, T) -> bool)
    requires Weak(less)
    ensures Ordered(Sort(s, less), less)
  {
    SortOrdersNeighbours(s, less);
    forall i, j | 0 <= i < j < |s| ensures !less(Sort(s, less)[j], Sort(s, less)[i]) {
      WeakChain(Sort(s, less), less, i, j);
    }
  }

  // ---- Stability ----

  function Select<T>(s: seq<T>, p: T -> bool): (r: seq<T>)
    ensures forall x :: x in r ==> x in s && p(x)
  {
    if s == [] then []
    else Select(s[..|s| - 1], p) + (if p(s[|s| - 1]) then [s[|s| - 1]] else [])
  }

  lemma SelectSnoc<T>(s: seq<T>, x: T, p: T -> bool)
    ensures Select(s + [x], p) == Select(s, p) + (if p(x) then [x] else [])
  {
    assert (s + [x])[..|s|] == s;
  }

  lemma {:induction false} InsertLastStable<T(!new)>(sorted: seq<T>, x: T, less: (T, T) -> bool, p: T -> bool)
    requires forall y, z :: p(y) && p(z) ==> !less(y, z)
    ensures Select(InsertLast(sorted, x, less), p) == Select(sorted, p) + (if p(x) then [x] else [])
  {
    hide Select;
    if sorted != [] && less(x, sorted[|sorted| - 1]) {
      var init, y := sorted[..|sorted| - 1], sorted[|sorted| - 1];
      InsertLastStable(init, x, less, p);
      SelectSnoc(InsertLast(init, x, less), y, p);
      SelectSnoc(init, y, p);
      assert sorted == init + [y];
      assert !(p(x) && p(y));
    } else {
      SelectSnoc(sorted, x, p);
    }
  }

  /** Elements none of which precedes another keep their order. */
  lemma {:induction false} SortStable<T(!new)>(s: seq<T>, less: (T, T) -> bool, p: T -> bool)
    requires forall y, z :: p(y) && p(z) ==> !less(y, z)
    ensures Select(Sort(s, less), p) == Select(s, p)
  {
    if s != [] {
      SortStable(s[..|s| - 1], less, p);
      InsertLastStable(Sort(s[..|s| - 1], less), s[|s| - 1], less, p);
    }
  }

  // ---- Any stable sort gives this result when the comparator is a strict weak order ----

  ghost predicate Tied<T>(x: T, y: T, less: (T, T) -> bool) {
    !less(x, y) && !less(y, x)
  }

  ghost function TiesOf<T>(s: seq<T>, x: T, less: (T, T) -> bool): seq<T> {
    Select(s, y => Tied(x, y, less))
  }

  ghost predicate SameTies<T(!new)>(s: seq<T>, t: seq<T>, less: (T, T) -> bool) {
    forall x :: TiesOf(s, x, less) == TiesOf(t, x, less)
  }

  lemma TiesOfSnoc<T>(s: seq<T>, x: T, less: (T, T) -> bool)
    requires s != []
    ensures TiesOf(s, x, less) ==
            TiesOf(s[..|s| - 1], x, less) + (if Tied(x, s[|s| - 1], less) then [s[|s| - 1]] else [])
  {
  }

  lemma {:induction false} SelectFinds<T>(s: seq<T>, p: T -> bool, x: T)
    requires x in s && p(x)
    ensures x in Select(s, p)
  {
    if s[|s| - 1] != x {
      SelectFinds(s[..|s| - 1], p, x);
    }
  }

  lemma TiesContain<T>(s: seq<T>, x: T, less: (T, T) -> bool)
    requires x in s && !less(x, x)
    ensures x in TiesOf(s, x, less)
  {
    SelectFinds(s, y => Tied(x, y, less), x);
  }

  lemma LastAgrees<T(!new)>(s: seq<T>, t: seq<T>, less: (T, T) -> bool)
    requires Weak(less) && Ordered(s, less) && Ordered(t, less) && SameTies(s, t, less)
    requires s != [] && t != []
    ensures s[|s| - 1] == t[|t| - 1]
  {
    var x, y := s[|s| - 1], t[|t| - 1];
    TiesContain(s, x, less);
    TiesContain(t, y, less);
    assert x in TiesOf(t, x, less) && y in TiesOf(s, y, less);
    assert Tied(x, y, less);
    TiesOfSnoc(s, x, less);
    TiesOfSnoc(t, x, less);
    assert TiesOf(s, x, less)[|TiesOf(s, x, less)| - 1] == x;
    assert TiesOf(t, x, less)[|TiesOf(t, x, less)| - 1] == y;
  }

  lemma TiesNonEmpty<T(!new)>(s: seq<T>, t: seq<T>, less: (T, T) -> bool)
    requires Asymmetric(less) && SameTies(s, t, less) && s != []
    ensures t != []
  {
    TiesContain(s, s[0], less);
    assert s[0] in TiesOf(t, s[0], less);
  }

  lemma CancelRight<T>(a: seq<T>, b: seq<T>, c: seq<T>)
    requires a + c == b + c
    ensures a == b
  {
    assert |a| == |b|;
    assert a == (a + c)[..|a|] && b == (b + c)[..|b|];
  }

  lemma InitTies<T(!new)>(s: seq<T>, t: seq<T>, less: (T, T) -> bool)
    requires SameTies(s, t, less) && s != [] && t != [] && s[|s| - 1] == t[|t| - 1]
    ensures SameTies(s[..|s| - 1], t[..|t| - 1], less)
  {
    hide TiesOf, Tied;
    var s', t' := s[..|s| - 1], t[..|t| - 1];
    forall x ensures TiesOf(s', x, less) == TiesOf(t', x, less) {
      TiesOfSnoc(s, x, less);
      TiesOfSnoc(t, x, less);
      CancelRight(TiesOf(s', x, less), TiesOf(t', x, less),
                  if Tied(x, s[|s| - 1], less) then [s[|s| - 1]] else []);
    }
  }

  /** Two ordered lists with the same ties in the same order are equal. */
  lemma {:induction false} StableSortUnique<T(!new)>(s: seq<T>, t: seq<T>, less: (T, T) -> bool)
    requires Weak(less) && Ordered(s, less) && Ordered(t, less) && SameTies(s, t, less)
    ensures s == t
    decreases |s|
  {
    if s != [] {
      TiesNonEmpty(s, t, less);
      LastAgrees(s, t, less);
      var s', t' := s[..|s| - 1], t[..|t| - 1];
      InitTies(s, t, less);
      StableSortUnique(s', t', less);
      assert s == s' + [s[|s| - 1]] && t == t' + [t[|t| - 1]];
    } else if t != [] {
      TiesNonEmpty(t, s, less);
    }
  }

  /** So whichever stable algorithm Go picks for the length, a strict weak order fixes the outcome. */
  lemma AnyStableSort<T(!new)>(s: seq<T>, sorted: seq<T>, less: (T, T) -> bool)
    requires Weak(less) && Ordered(sorted, less) && SameTies(s, sorted, less)
    ensures sorted == Sort(s, less)
  {
    SortOrders(s, less);
    forall x ensures TiesOf(Sort(s, less), x, less) == TiesOf(sorted, x, less) {
      assert TiesOf(s, x, less) == TiesOf(sorted, x, less);
      SortStable(s, less, y => Tied(x, y, less));
    }
    StableSortUnique(sorted, Sort(s, less), less);
  }

  // ---- Comparators that agree on the elements sort alike ----

  lemma {:induction false} InsertLastCongruent<T>(sorted: seq<T>, x: T, less: (T, T) -> bool, other: (T, T) -> bool)
    requires forall y :: y in sorted ==> less(x, y) == other(x, y)
    ensures InsertLast(sorted, x, less) == InsertLast(sorted, x, other)
  {
    if sorted != [] {
      InsertLastCongruent(sorted[..|sorted| - 1], x, less, other);
    }
  }

  lemma {:induction false} SortCongruent<T>(s: seq<T>, less: (T, T) -> bool, other: (T, T) -> bool)
    requires forall x, y :: x in s && y in s ==> less(x, y) == other(x, y)
    ensures Sort(s, less) == Sort(s, other)
  {
    if s != [] {
      SortCongruent(s[..|s| - 1], less, other);
      var x, sorted := s[|s| - 1], Sort(s[..|s| - 1], less);
      SortPermutes(s[..|s| - 1], less);
      forall y | y in sorted ensures less(x, y) == other(x, y) {
        assert y in multiset(sorted);
        assert y in s[..|s| - 1] && y in s && x in s;
      }
      InsertLastCongruent(sorted, x, less, other);
    }
  }
}
