/** aggregateProfileStatsAt of internal/mux/combined_profile.go. */
module Profile {
  import opened Accounts
  import opened Averages
  import opened Calendar
  import opened Collections
  import opened Sums
  import Streaks
  import StableSort

  datatype Bucket = Bucket(startDate: string, tokens: int)

  datatype Invocation = Invocation(kind: string, pluginID: Option<string>, pluginName: Option<string>,
                                   skillID: Option<string>, skillName: Option<string>, usageCount: int)

  datatype Stats = Stats(lifetimeTokens: int, totalThreads: int, totalSkills: int, uniqueSkills: int,
                         longestTurn: int, fastMode: real, effort: string, effortPercent: real,
                         buckets: seq<Bucket>, invocations: seq<Invocation>)

  datatype Combined = Combined(lifetimeTokens: int, totalThreads: int, totalSkills: int, uniqueSkills: int,
                               longestTurn: int, fastMode: real, effort: string, effortPercent: real,
                               peak: int, current: nat, longest: nat,
                               daily: seq<Bucket>, cumulative: seq<Bucket>, weekly: seq<Bucket>,
                               top: seq<Invocation>)

  function LifetimeOf(s: Stats): int { s.lifetimeTokens }
  function ThreadsOf(s: Stats): int { s.totalThreads }
  function SkillsOf(s: Stats): int { s.totalSkills }
  function UniqueOf(s: Stats): int { s.uniqueSkills }
  function TurnOf(s: Stats): int { s.longestTurn }
  function BucketsOf(s: Stats): seq<Bucket> { s.buckets }
  function InvocationsOf(s: Stats): seq<Invocation> { s.invocations }
  function StartOf(b: Bucket): string { b.startDate }
  function TokensOf(b: Bucket): int { b.tokens }
  function UsageOf(x: Invocation): int { x.usageCount }

  function AllBuckets(profiles: seq<Stats>): seq<Bucket> {
    Flatten(profiles, BucketsOf)
  }

  function AllInvocations(profiles: seq<Stats>): seq<Invocation> {
    Flatten(profiles, InvocationsOf)
  }

  // ---- Maps that collect token counts ----

  function Starts(buckets: seq<Bucket>): set<string> {
    set i | 0 <= i < |buckets| :: buckets[i].startDate
  }

  function TokensOn(buckets: seq<Bucket>, date: string): int {
    ClassTotal(buckets, StartOf, TokensOf, date)
  }

  /** `m` has, for each date of `buckets`, all their tokens of that date. */
  ghost predicate Collects(m: map<string, int>, buckets: seq<Bucket>) {
    m.Keys == Starts(buckets) && forall date :: date in m ==> m[date] == TokensOn(buckets, date)
  }

  /** `m[date] += tokens`. */
  function Add(m: map<string, int>, date: string, tokens: int): map<string, int> {
    m[date := (if date in m then m[date] else 0) + tokens]
  }

  lemma StartsSnoc(buckets: seq<Bucket>, b: Bucket)
    ensures Starts(buckets + [b]) == Starts(buckets) + {b.startDate}
  {
    var all := buckets + [b];
    forall date ensures date in Starts(all) <==> date in Starts(buckets) || date == b.startDate {
      if date in Starts(buckets) {
        var i :| 0 <= i < |buckets| && buckets[i].startDate == date;
        assert all[i] == buckets[i];
      }
      assert all[|buckets|] == b;
    }
  }

  lemma {:induction false} AbsentDateHasNone(buckets: seq<Bucket>, date: string)
    requires date !in Starts(buckets)
    ensures TokensOn(buckets, date) == 0
  {
    forall b | b in buckets ensures Restrict(StartOf, TokensOf, date)(b) == 0 {
      var i :| 0 <= i < |buckets| && buckets[i] == b;
      assert StartOf(buckets[i]) in Starts(buckets);
    }
    ZeroSum(buckets, Restrict(StartOf, TokensOf, date));
  }

  lemma TokensOnSnoc(buckets: seq<Bucket>, b: Bucket, date: string)
    ensures TokensOn(buckets + [b], date) == TokensOn(buckets, date) + (if b.startDate == date then b.tokens else 0)
  {
    SumBySnoc(buckets, b, Restrict(StartOf, TokensOf, date));
    assert Restrict(StartOf, TokensOf, date)(b) == if StartOf(b) == date then TokensOf(b) else 0;
  }

  lemma AddCollects(m: map<string, int>, buckets: seq<Bucket>, b: Bucket)
    requires Collects(m, buckets)
    ensures Collects(Add(m, b.startDate, b.tokens), buckets + [b])
  {
    hide Starts, TokensOn;
    StartsSnoc(buckets, b);
    var after := Add(m, b.startDate, b.tokens);
    forall date | date in after ensures after[date] == TokensOn(buckets + [b], date) {
      TokensOnSnoc(buckets, b, date);
      if date !in m {
        AbsentDateHasNone(buckets, date);
      }
    }
  }

  method AddBuckets(daily: map<string, int>, buckets: seq<Bucket>, ghost before: seq<Bucket>)
    returns (r: map<string, int>)
    requires Collects(daily, before)
    ensures Collects(r, before + buckets)
  {
    hide Collects, Add;
    r := daily;
    assert before + buckets[..0] == before;
    for i := 0 to |buckets|
      invariant Collects(r, before + buckets[..i])
    {
      AddCollects(r, before + buckets[..i], buckets[i]);
      assert before + buckets[..i] + [buckets[i]] == before + buckets[..i + 1];
      r := Add(r, buckets[i].startDate, buckets[i].tokens);
    }
    assert buckets[..|buckets|] == buckets;
  }

  // ---- Sorted summaries ----

  function StartTexts(list: seq<Bucket>): (r: seq<string>)
    ensures |r| == |list| && forall i :: 0 <= i < |list| ==> r[i] == list[i].startDate
  {
    seq(|list|, i requires 0 <= i < |list| => list[i].startDate)
  }

  /** `list` has one bucket for each date of `buckets`, in order of the dates, with all the tokens of that date. */
  ghost predicate IsSummary(list: seq<Bucket>, buckets: seq<Bucket>) {
    && Streaks.TextSorted(StartTexts(list))
    && Starts(list) == Starts(buckets)
    && forall b :: b in list ==> b.tokens == TokensOn(buckets, b.startDate)
  }

  /** The tokens of the buckets whose date satisfies `p`. */
  function Where(p: string -> bool): Bucket -> int {
    (b: Bucket) => if p(b.startDate) then b.tokens else 0
  }

  lemma SortedDistinct(dates: seq<string>)
    requires Streaks.TextSorted(dates)
    ensures Distinct(dates)
  {
    forall i, j | 0 <= i < j < |dates| ensures dates[i] != dates[j] {
      TextLessTrichotomy(dates[i], dates[j]);
    }
  }

  lemma {:induction false} SumOverDates(list: seq<Bucket>, buckets: seq<Bucket>, p: string -> bool)
    requires forall b :: b in list ==> b.tokens == TokensOn(buckets, b.startDate)
    ensures SumBy(list, Where(p)) == SumBy(StartTexts(list), Totals(buckets, StartOf, Where(p)))
  {
    if list != [] {
      var init, b := list[..|list| - 1], list[|list| - 1];
      SumOverDates(init, buckets, p);
      assert StartTexts(list)[..|list| - 1] == StartTexts(init);
      assert b in list;
      var g, h := Restrict(StartOf, TokensOf, b.startDate), Restrict(StartOf, Where(p), b.startDate);
      if p(b.startDate) {
        SumByCongruent(buckets, g, h);
      } else {
        ZeroSum(buckets, h);
      }
    }
  }

  /** No token is lost or counted twice, for any selection of dates. */
  lemma SummaryConserves(list: seq<Bucket>, buckets: seq<Bucket>, p: string -> bool)
    requires IsSummary(list, buckets)
    ensures SumBy(list, Where(p)) == SumBy(buckets, Where(p))
  {
    hide Where, Totals, TokensOn;
    SumOverDates(list, buckets, p);
    SortedDistinct(StartTexts(list));
    forall b | b in buckets ensures StartOf(b) in StartTexts(list) {
      var i :| 0 <= i < |buckets| && buckets[i] == b;
      assert b.startDate in Starts(buckets);
      var k :| 0 <= k < |list| && list[k].startDate == b.startDate;
      assert StartTexts(list)[k] == b.startDate;
    }
    PartitionSum(StartTexts(list), buckets, StartOf, Where(p));
  }

  lemma InitMembers(s: seq<string>)
    requires s != [] && Distinct(s)
    ensures forall x :: x in s[..|s| - 1] <==> x in s && x != s[|s| - 1]
  {
    assert s == s[..|s| - 1] + [s[|s| - 1]];
  }

  lemma SortedLasts(a: seq<string>, b: seq<string>, c: seq<string>, d: seq<string>)
    requires Streaks.TextSorted(a) && Streaks.TextSorted(b) && (forall s :: s in a <==> s in b) && a != [] && b != []
    requires c == a[..|a| - 1] && d == b[..|b| - 1]
    ensures a[|a| - 1] == b[|b| - 1] && forall s :: s in c <==> s in d
  {
    hide TextLess;
    var x, y := a[|a| - 1], b[|b| - 1];
    assert x in b && y in a;
    var i :| 0 <= i < |b| && b[i] == x;
    var j :| 0 <= j < |a| && a[j] == y;
    TextLessTrichotomy(x, y);
    SortedDistinct(a);
    SortedDistinct(b);
    InitMembers(a);
    InitMembers(b);
    forall s: string ensures s in c <==> s in d {
      assert s in a <==> s in b;
    }
  }

  lemma {:induction false} SortedUnique(a: seq<string>, b: seq<string>)
    requires Streaks.TextSorted(a) && Streaks.TextSorted(b) && forall s :: s in a <==> s in b
    ensures a == b
  {
    hide TextLess;
    assert a == [] <==> b == [] by {
      assert a != [] ==> a[0] in a && b != [];
      assert b != [] ==> b[0] in b && a != [];
    }
    if a != [] {
      var c, d := a[..|a| - 1], b[..|b| - 1];
      SortedLasts(a, b, c, d);
      SortedUnique(c, d);
      assert a == c + [a[|a| - 1]] && b == d + [b[|b| - 1]];
    }
  }

  lemma SameMultisetSameStarts(a: seq<Bucket>, b: seq<Bucket>)
    requires multiset(a) == multiset(b)
    ensures Starts(a) <= Starts(b)
  {
    forall date | date in Starts(a) ensures date in Starts(b) {
      var i :| 0 <= i < |a| && a[i].startDate == date;
      assert a[i] in multiset(b);
      var k :| 0 <= k < |b| && b[k] == a[i];
    }
  }

  /** The summary does not depend on the order of the buckets. */
  lemma SummaryOrderFree(list: seq<Bucket>, buckets: seq<Bucket>, other: seq<Bucket>, permuted: seq<Bucket>)
    requires IsSummary(list, buckets) && IsSummary(other, permuted) && multiset(buckets) == multiset(permuted)
    ensures list == other
  {
    hide TokensOn;
    SameMultisetSameStarts(buckets, permuted);
    SameMultisetSameStarts(permuted, buckets);
    forall date ensures date in StartTexts(list) <==> date in StartTexts(other) {
      StartTextsMembers(list, date);
      StartTextsMembers(other, date);
    }
    SortedUnique(StartTexts(list), StartTexts(other));
    forall i | 0 <= i < |list| ensures list[i] == other[i] {
      assert StartTexts(list)[i] == StartTexts(other)[i];
      assert list[i] in list && other[i] in other;
      TokensOrderFree(buckets, permuted, list[i].startDate);
    }
  }

  lemma StartTextsMembers(list: seq<Bucket>, date: string)
    ensures date in StartTexts(list) <==> date in Starts(list)
  {
    if date in StartTexts(list) {
      var i :| 0 <= i < |list| && StartTexts(list)[i] == date;
    }
    if date in Starts(list) {
      var i :| 0 <= i < |list| && list[i].startDate == date;
      assert StartTexts(list)[i] == date;
    }
  }

  lemma TokensOrderFree(buckets: seq<Bucket>, permuted: seq<Bucket>, date: string)
    requires multiset(buckets) == multiset(permuted)
    ensures TokensOn(buckets, date) == TokensOn(permuted, date)
  {
    SumByPermutes(buckets, permuted, Restrict(StartOf, TokensOf, date));
  }

  // ---- Sorting keys ----

  lemma TextLessWeak()
    ensures StableSort.Weak(TextLess)
  {
    hide TextLess;
    forall x, y ensures TextLess(x, y) ==> !TextLess(y, x) {
      TextLessTrichotomy(x, y);
    }
    forall x, y, z | !TextLess(y, x) && !TextLess(z, y) ensures !TextLess(z, x) {
      TextLessTrichotomy(x, y);
      TextLessTrichotomy(y, z);
      TextLessTrichotomy(x, z);
      if TextLess(x, y) && TextLess(y, z) {
        TextLessTransitive(x, y, z);
      }
    }
  }

  /** `order` lists the set without repetition: one order in which Go may range over a map. */
  ghost predicate Enumerates(order: seq<string>, keys: set<string>) {
    Distinct(order) && forall k :: k in order <==> k in keys
  }

  method Range(keys: set<string>) returns (order: seq<string>)
    ensures Enumerates(order, keys)
  {
    order := [];
    var rest := keys;
    while rest != {}
      invariant rest <= keys && Distinct(order)
      invariant forall k :: k in order <==> k in keys && k !in rest
      decreases |rest|
    {
      var k := Any(rest);
      order := order + [k];
      rest := rest - {k};
    }
  }

  lemma SortedKeys(order: seq<string>)
    requires Distinct(order)
    ensures Streaks.TextSorted(StableSort.Sort(order, TextLess))
    ensures forall k :: k in StableSort.Sort(order, TextLess) <==> k in order
  {
    hide TextLess;
    var sorted := StableSort.Sort(order, TextLess);
    TextLessWeak();
    StableSort.SortOrders(order, TextLess);
    StableSort.SortMembers(order, TextLess);
    StableSort.SortPermutes(order, TextLess);
    PermutedDistinct(order, sorted);
    forall i, j | 0 <= i < j < |sorted| ensures TextLess(sorted[i], sorted[j]) {
      TextLessTrichotomy(sorted[i], sorted[j]);
    }
  }

  lemma {:induction false} PermutedDistinct<T>(a: seq<T>, b: seq<T>)
    requires Distinct(a) && multiset(a) == multiset(b)
    ensures Distinct(b)
  {
    forall i, j | 0 <= i < j < |b| ensures b[i] != b[j] {
      if b[i] == b[j] {
        assert b == b[..i] + [b[i]] + b[i + 1..j] + [b[j]] + b[j + 1..];
        assert multiset(b)[b[i]] >= 2;
        DistinctOnce(a, b[i]);
      }
    }
  }

  lemma {:induction false} DistinctOnce<T>(a: seq<T>, x: T)
    requires Distinct(a)
    ensures multiset(a)[x] <= 1
  {
    if a != [] {
      var init := a[..|a| - 1];
      DistinctOnce(init, x);
      assert a == init + [a[|a| - 1]];
      if a[|a| - 1] == x {
        assert x !in init;
        assert multiset(init)[x] == 0;
      }
    }
  }

  /** The keys of a map, in sort.Strings order. */
  method KeysInOrder(keys: set<string>) returns (sorted: seq<string>)
    ensures Streaks.TextSorted(sorted) && forall k :: k in sorted <==> k in keys
  {
    var order := Range(keys);
    var a := new string[|order|](i requires 0 <= i < |order| => order[i]);
    assert a[..] == order;
    StableSort.InsertionSort(a, TextLess);
    SortedKeys(order);
    sorted := a[..];
  }

  // ---- The loop over the dates ----

  /** The week a date's tokens are counted under; dates that do not parse have none. */
  function WeekOf(date: string): Option<string> {
    var d := Parse(date);
    if d.None? then None else Some(Format(WeekStart(d.value)))
  }

  /** The buckets as the weekly map sees them. */
  function ByWeek(buckets: seq<Bucket>): seq<Bucket> {
    if buckets == [] then []
    else
      var b := buckets[|buckets| - 1];
      var week := WeekOf(b.startDate);
      ByWeek(buckets[..|buckets| - 1]) + (if week.Some? then [Bucket(week.value, b.tokens)] else [])
  }

  ghost predicate IsCumulative(cumulative: seq<Bucket>, daily: seq<Bucket>) {
    && |cumulative| == |daily|
    && forall i :: 0 <= i < |daily| ==> cumulative[i] == Bucket(daily[i].startDate, SumBy(daily[..i + 1], TokensOf))
  }

  /** The greatest of the values and 0. */
  ghost predicate IsPeak<T>(peak: int, s: seq<T>, f: T -> int) {
    peak >= 0 && (forall x :: x in s ==> f(x) <= peak) && (peak == 0 || exists x :: x in s && f(x) == peak)
  }

  lemma PeakGrows<T>(peak: int, s: seq<T>, f: T -> int, x: T)
    requires IsPeak(peak, s, f)
    ensures IsPeak(if f(x) > peak then f(x) else peak, s + [x], f)
  {
    var n := if f(x) > peak then f(x) else peak;
    if n != 0 {
      if f(x) > peak {
        assert x in s + [x];
      } else {
        var y :| y in s && f(y) == peak;
        assert y in s + [x];
      }
    }
  }

  lemma ByWeekSnoc(buckets: seq<Bucket>, b: Bucket)
    ensures ByWeek(buckets + [b]) ==
            ByWeek(buckets) + (if WeekOf(b.startDate).Some? then [Bucket(WeekOf(b.startDate).value, b.tokens)] else [])
  {
    assert (buckets + [b])[..|buckets|] == buckets;
  }

  lemma CumulativeGrows(cumulative: seq<Bucket>, daily: seq<Bucket>, b: Bucket, total: int)
    requires IsCumulative(cumulative, daily) && total == SumBy(daily, TokensOf) + b.tokens
    ensures IsCumulative(cumulative + [Bucket(b.startDate, total)], daily + [b])
  {
    SumBySnoc(daily, b, TokensOf);
    var all := daily + [b];
    forall i | 0 <= i < |all|
      ensures (cumulative + [Bucket(b.startDate, total)])[i] == Bucket(all[i].startDate, SumBy(all[..i + 1], TokensOf))
    {
      if i < |daily| {
        assert all[..i + 1] == daily[..i + 1];
      } else {
        assert all[..i + 1] == all;
      }
    }
  }

  method DateLoop(dates: seq<string>, daily: map<string, int>)
    returns (list: seq<Bucket>, cumulative: seq<Bucket>, peak: int, weekly: map<string, int>)
    requires forall date :: date in dates ==> date in daily
    ensures |list| == |dates| && forall i :: 0 <= i < |dates| ==> list[i] == Bucket(dates[i], daily[dates[i]])
    ensures IsCumulative(cumulative, list) && IsPeak(peak, list, TokensOf) && Collects(weekly, ByWeek(list))
  {
    hide Collects, ByWeek, IsCumulative, IsPeak, WeekOf, Add, SumBy;
    list, cumulative, peak, weekly := [], [], 0, map[];
    var total := 0;
    StartOfLoop();
    for i := 0 to |dates|
      invariant |list| == i && forall k :: 0 <= k < i ==> list[k] == Bucket(dates[k], daily[dates[k]])
      invariant IsCumulative(cumulative, list) && total == SumBy(list, TokensOf)
      invariant IsPeak(peak, list, TokensOf) && Collects(weekly, ByWeek(list))
    {
      var tokens := daily[dates[i]];
      var b := Bucket(dates[i], tokens);
      SumBySnoc(list, b, TokensOf);
      CumulativeGrows(cumulative, list, b, total + tokens);
      PeakGrows(peak, list, TokensOf, b);
      ByWeekSnoc(list, b);
      var week := WeekOf(dates[i]);
      if week.Some? {
        AddCollects(weekly, ByWeek(list), Bucket(week.value, tokens));
        weekly := Add(weekly, week.value, tokens);
      } else {
        assert ByWeek(list) + [] == ByWeek(list);
      }
      list := list + [b];
      total := total + tokens;
      cumulative := cumulative + [Bucket(dates[i], total)];
      if tokens > peak {
        peak := tokens;
      }
    }
  }

  lemma StartOfLoop()
    ensures IsCumulative([], []) && IsPeak(0, [], TokensOf) && Collects(map[], ByWeek([])) && SumBy([], TokensOf) == 0
  {
  }

  method BucketsInOrder(sorted: seq<string>, m: map<string, int>) returns (list: seq<Bucket>)
    requires forall k :: k in sorted ==> k in m
    ensures |list| == |sorted| && forall i :: 0 <= i < |sorted| ==> list[i] == Bucket(sorted[i], m[sorted[i]])
  {
    list := [];
    for i := 0 to |sorted|
      invariant |list| == i && forall k :: 0 <= k < i ==> list[k] == Bucket(sorted[k], m[sorted[k]])
    {
      list := list + [Bucket(sorted[i], m[sorted[i]])];
    }
  }

  lemma ListingIsSummary(list: seq<Bucket>, sorted: seq<string>, m: map<string, int>, buckets: seq<Bucket>)
    requires Collects(m, buckets) && Streaks.TextSorted(sorted) && forall k :: k in sorted <==> k in m
    requires |list| == |sorted| && forall i :: 0 <= i < |sorted| ==> list[i] == Bucket(sorted[i], m[sorted[i]])
    ensures IsSummary(list, buckets) && StartTexts(list) == sorted
  {
    hide TokensOn;
    forall date ensures date in Starts(list) <==> date in m {
      if date in m {
        assert date in sorted;
        var i :| 0 <= i < |sorted| && sorted[i] == date;
        assert list[i].startDate == date;
      }
    }
    assert StartTexts(list) == sorted;
  }

  // ---- Invocations ----

  function TextOf(value: Option<string>): string {
    if value.Some? then value.value else ""
  }

  function Key(x: Invocation): string {
    x.kind + "|" + TextOf(x.pluginID) + "|" + TextOf(x.skillID)
  }

  /** One turn of the merging loop: a stored invocation without a type is overwritten, not added to. */
  function MergeOne(m: map<string, Invocation>, x: Invocation): map<string, Invocation> {
    if Key(x) !in m || m[Key(x)].kind == "" then m[Key(x) := x]
    else m[Key(x) := m[Key(x)].(usageCount := m[Key(x)].usageCount + x.usageCount)]
  }

  function Merged(invocations: seq<Invocation>): map<string, Invocation> {
    if invocations == [] then map[]
    else MergeOne(Merged(invocations[..|invocations| - 1]), invocations[|invocations| - 1])
  }

  method AddInvocations(m: map<string, Invocation>, invocations: seq<Invocation>, ghost before: seq<Invocation>)
    returns (r: map<string, Invocation>)
    requires m == Merged(before)
    ensures r == Merged(before + invocations)
  {
    hide MergeOne;
    r := m;
    assert before + invocations[..0] == before;
    for i := 0 to |invocations|
      invariant r == Merged(before + invocations[..i])
    {
      ghost var next := before + invocations[..i + 1];
      assert next[..|next| - 1] == before + invocations[..i];
      r := MergeOne(r, invocations[i]);
    }
    assert invocations[..|invocations|] == invocations;
  }

  predicate MoreUsed(x: Invocation, y: Invocation) {
    x.usageCount > y.usageCount
  }

  function Values(m: map<string, Invocation>, order: seq<string>): (r: seq<Invocation>)
    requires forall k :: k in order ==> k in m
    ensures |r| == |order| && forall i :: 0 <= i < |order| ==> r[i] == m[order[i]]
  {
    seq(|order|, i requires 0 <= i < |order| => m[order[i]])
  }

  function FirstFive(s: seq<Invocation>): seq<Invocation> {
    if |s| > 5 then s[..5] else s
  }

  /** The five most used of the merged invocations, for some order of ranging over the map. */
  ghost predicate IsTop(top: seq<Invocation>, m: map<string, Invocation>) {
    exists order :: Enumerates(order, m.Keys) && top == FirstFive(StableSort.Sort(Values(m, order), MoreUsed))
  }

  method TopInvocations(m: map<string, Invocation>) returns (top: seq<Invocation>)
    ensures IsTop(top, m)
  {
    var order := Range(m.Keys);
    var values := Values(m, order);
    var a := new Invocation[|values|](i requires 0 <= i < |values| => values[i]);
    assert a[..] == values;
    StableSort.InsertionSort(a, MoreUsed);
    top := a[..];
    if |top| > 5 {
      top := top[..5];
    }
    assert top == FirstFive(StableSort.Sort(Values(m, order), MoreUsed));
  }

  // ---- Weighted averages ----

  /** A profile weighs as much as its threads, at least one. */
  function WeightOf(s: Stats): real {
    if s.totalThreads as real <= 0.0 then 1.0 else s.totalThreads as real
  }

  function FastShareOf(s: Stats): real {
    s.fastMode * WeightOf(s)
  }

  function EffortShareOf(effort: string): Stats -> real {
    (s: Stats) => if s.effort == effort then s.effortPercent * WeightOf(s) / 100.0 else 0.0
  }

  function Efforts(profiles: seq<Stats>): set<string> {
    set i | 0 <= i < |profiles| && profiles[i].effort != "" :: profiles[i].effort
  }

  /** What the profiles together give to one reasoning effort; "" stands for no effort. */
  function EffortWeight(profiles: seq<Stats>, effort: string): real {
    if effort == "" then 0.0 else RealSum(profiles, EffortShareOf(effort))
  }

  ghost predicate CollectsEfforts(m: map<string, real>, profiles: seq<Stats>) {
    m.Keys == Efforts(profiles) && forall effort :: effort in m ==> m[effort] == EffortWeight(profiles, effort)
  }

  /** An effort with the greatest weight, none when no weight is positive. */
  ghost predicate IsMostUsed(effort: string, profiles: seq<Stats>) {
    && (effort != "" ==> effort in Efforts(profiles) && EffortWeight(profiles, effort) > 0.0)
    && forall other :: other in Efforts(profiles) ==> EffortWeight(profiles, other) <= EffortWeight(profiles, effort)
  }

  function Mean(total: real, weight: real): real {
    if weight > 0.0 then total / weight else 0.0
  }

  ghost predicate AveragesAre(profiles: seq<Stats>, c: Combined) {
    && c.fastMode == Mean(RealSum(profiles, FastShareOf), RealSum(profiles, WeightOf))
    && IsMostUsed(c.effort, profiles)
    && c.effortPercent == Mean(EffortWeight(profiles, c.effort), RealSum(profiles, WeightOf)) * 100.0
  }

  /** `reasoningWeights[effort] += weight`. */
  function AddEffort(m: map<string, real>, s: Stats): map<string, real> {
    if s.effort == "" then m
    else m[s.effort := (if s.effort in m then m[s.effort] else 0.0) + s.effortPercent * WeightOf(s) / 100.0]
  }

  lemma EffortsSnoc(profiles: seq<Stats>, s: Stats)
    ensures Efforts(profiles + [s]) == Efforts(profiles) + (if s.effort != "" then {s.effort} else {})
  {
    var all := profiles + [s];
    assert all[|profiles|] == s;
    forall effort ensures effort in Efforts(all) <==> effort in Efforts(profiles) || (s.effort != "" && effort == s.effort) {
      if effort in Efforts(profiles) {
        var i :| 0 <= i < |profiles| && profiles[i].effort == effort && effort != "";
        assert all[i] == profiles[i];
      }
    }
  }

  lemma {:induction false} AbsentEffortHasNone(profiles: seq<Stats>, effort: string)
    requires effort !in Efforts(profiles) && effort != ""
    ensures EffortWeight(profiles, effort) == 0.0
  {
    if profiles != [] {
      var init, s := profiles[..|profiles| - 1], profiles[|profiles| - 1];
      assert profiles == init + [s];
      EffortsSnoc(init, s);
      AbsentEffortHasNone(init, effort);
    }
  }

  lemma EffortWeightSnoc(profiles: seq<Stats>, s: Stats, effort: string)
    ensures EffortWeight(profiles + [s], effort) == EffortWeight(profiles, effort) +
            (if effort != "" && s.effort == effort then s.effortPercent * WeightOf(s) / 100.0 else 0.0)
  {
    RealSumSnoc(profiles, s, EffortShareOf(effort));
  }

  lemma AddEffortCollects(m: map<string, real>, profiles: seq<Stats>, s: Stats)
    requires CollectsEfforts(m, profiles)
    ensures CollectsEfforts(AddEffort(m, s), profiles + [s])
  {
    hide Efforts, EffortWeight, WeightOf;
    EffortsSnoc(profiles, s);
    var after := AddEffort(m, s);
    forall effort | effort in after ensures after[effort] == EffortWeight(profiles + [s], effort) {
      EffortNamed(profiles + [s], effort);
      EffortWeightSnoc(profiles, s, effort);
      if effort !in m {
        AbsentEffortHasNone(profiles, effort);
      }
    }
  }

  lemma EffortNamed(profiles: seq<Stats>, effort: string)
    ensures effort in Efforts(profiles) ==> effort != ""
  {
  }

  /** The loop that looks for the effort with the greatest weight. */
  method MostUsedEffort(weights: map<string, real>, ghost profiles: seq<Stats>) returns (effort: string)
    requires CollectsEfforts(weights, profiles)
    ensures IsMostUsed(effort, profiles)
  {
    hide Efforts, EffortWeight;
    effort := "";
    NoEffortWeighsNothing(profiles);
    var order := Range(weights.Keys);
    for i := 0 to |order|
      invariant effort != "" ==> effort in weights && weights[effort] > 0.0
      invariant forall k :: 0 <= k < i ==> weights[order[k]] <= EffortWeight(profiles, effort)
    {
      assert order[i] in order;
      EffortNamed(profiles, order[i]);
      if weights[order[i]] > (if effort in weights then weights[effort] else 0.0) {
        effort := order[i];
      }
      EffortNamed(profiles, effort);
    }
    forall other | other in Efforts(profiles) ensures EffortWeight(profiles, other) <= EffortWeight(profiles, effort) {
      assert other in order;
      var k :| 0 <= k < |order| && order[k] == other;
    }
  }

  lemma NoEffortWeighsNothing(profiles: seq<Stats>)
    ensures EffortWeight(profiles, "") == 0.0 && "" !in Efforts(profiles)
  {
  }

  // ---- The whole aggregation ----

  ghost predicate TotalsAre(profiles: seq<Stats>, c: Combined) {
    && c.lifetimeTokens == SumBy(profiles, LifetimeOf) && c.totalThreads == SumBy(profiles, ThreadsOf)
    && c.totalSkills == SumBy(profiles, SkillsOf) && c.uniqueSkills == SumBy(profiles, UniqueOf)
    && IsPeak(c.longestTurn, profiles, TurnOf)
  }

  /** The running sums behind the averages. */
  ghost predicate RunningSums(profiles: seq<Stats>, fast: real, weight: real, efforts: map<string, real>) {
    && fast == RealSum(profiles, FastShareOf) && weight == RealSum(profiles, WeightOf)
    && CollectsEfforts(efforts, profiles)
  }

  lemma RunningSumsGrow(profiles: seq<Stats>, fast: real, weight: real, efforts: map<string, real>, s: Stats)
    requires RunningSums(profiles, fast, weight, efforts)
    ensures RunningSums(profiles + [s], fast + FastShareOf(s), weight + WeightOf(s), AddEffort(efforts, s))
  {
    hide CollectsEfforts, AddEffort;
    RealSumSnoc(profiles, s, FastShareOf);
    RealSumSnoc(profiles, s, WeightOf);
    AddEffortCollects(efforts, profiles, s);
  }

  ghost predicate IsReport(profiles: seq<Stats>, today: Day, c: Combined) {
    && TotalsAre(profiles, c) && AveragesAre(profiles, c)
    && IsSummary(c.daily, AllBuckets(profiles))
    && IsCumulative(c.cumulative, c.daily) && IsPeak(c.peak, c.daily, TokensOf)
    && IsSummary(c.weekly, ByWeek(c.daily))
    && Streaks.IsCurrent(StartTexts(c.daily), today, c.current)
    && Streaks.IsLongest(Streaks.ActiveDays(StartTexts(c.daily)), c.longest)
    && IsTop(c.top, Merged(AllInvocations(profiles)))
  }

  /** The loop over the profiles. */
  method MergeProfiles(profiles: seq<Stats>)
    returns (totals: Combined, fast: real, weights: real, efforts: map<string, real>,
             daily: map<string, int>, invocations: map<string, Invocation>)
    ensures TotalsAre(profiles, totals) && RunningSums(profiles, fast, weights, efforts)
    ensures Collects(daily, AllBuckets(profiles)) && invocations == Merged(AllInvocations(profiles))
  {
    hide Collects, Merged, TotalsAre, RunningSums, AllBuckets, AllInvocations, AddEffort, WeightOf;
    totals := Combined(0, 0, 0, 0, 0, 0.0, "", 0.0, 0, 0, 0, [], [], [], []);
    fast, weights, efforts, daily, invocations := 0.0, 0.0, map[], map[], map[];
    NothingMerged();
    for i := 0 to |profiles|
      invariant TotalsAre(profiles[..i], totals) && RunningSums(profiles[..i], fast, weights, efforts)
      invariant Collects(daily, AllBuckets(profiles[..i])) && invocations == Merged(AllInvocations(profiles[..i]))
    {
      var stats := profiles[i];
      TotalsGrow(profiles[..i], totals, stats);
      RunningSumsGrow(profiles[..i], fast, weights, efforts, stats);
      assert profiles[..i] + [stats] == profiles[..i + 1];
      totals := totals.(lifetimeTokens := totals.lifetimeTokens + stats.lifetimeTokens,
                        totalThreads := totals.totalThreads + stats.totalThreads,
                        totalSkills := totals.totalSkills + stats.totalSkills,
                        uniqueSkills := totals.uniqueSkills + stats.uniqueSkills);
      if stats.longestTurn > totals.longestTurn {
        totals := totals.(longestTurn := stats.longestTurn);
      }
      var weight := WeightOf(stats);
      assert FastShareOf(stats) == stats.fastMode * weight;
      fast := fast + stats.fastMode * weight;
      weights := weights + weight;
      efforts := AddEffort(efforts, stats);
      AllSnoc(profiles[..i], stats);
      daily := AddBuckets(daily, stats.buckets, AllBuckets(profiles[..i]));
      invocations := AddInvocations(invocations, stats.invocations, AllInvocations(profiles[..i]));
    }
    assert profiles[..|profiles|] == profiles;
  }

  lemma NothingMerged()
    ensures TotalsAre([], Combined(0, 0, 0, 0, 0, 0.0, "", 0.0, 0, 0, 0, [], [], [], []))
    ensures RunningSums([], 0.0, 0.0, map[])
    ensures Collects(map[], AllBuckets([])) && Merged(AllInvocations([])) == map[]
  {
  }

  lemma AllSnoc(profiles: seq<Stats>, s: Stats)
    ensures AllBuckets(profiles + [s]) == AllBuckets(profiles) + s.buckets
    ensures AllInvocations(profiles + [s]) == AllInvocations(profiles) + s.invocations
  {
    FlattenSnoc(profiles, s, BucketsOf);
    FlattenSnoc(profiles, s, InvocationsOf);
    assert BucketsOf(s) == s.buckets && InvocationsOf(s) == s.invocations;
  }

  lemma TotalsGrow(profiles: seq<Stats>, c: Combined, s: Stats)
    requires TotalsAre(profiles, c)
    ensures TotalsAre(profiles + [s], c.(lifetimeTokens := c.lifetimeTokens + s.lifetimeTokens,
      totalThreads := c.totalThreads + s.totalThreads, totalSkills := c.totalSkills + s.totalSkills,
      uniqueSkills := c.uniqueSkills + s.uniqueSkills,
      longestTurn := if s.longestTurn > c.longestTurn then s.longestTurn else c.longestTurn))
  {
    hide SumBy, IsPeak;
    SumBySnoc(profiles, s, LifetimeOf);
    SumBySnoc(profiles, s, ThreadsOf);
    SumBySnoc(profiles, s, SkillsOf);
    SumBySnoc(profiles, s, UniqueOf);
    PeakGrows(c.longestTurn, profiles, TurnOf, s);
  }

  method AggregateProfileStatsAt(profiles: seq<Stats>, today: Day) returns (c: Combined)
    ensures IsReport(profiles, today, c)
  {
    hide TotalsAre, AveragesAre, RunningSums, CollectsEfforts, IsMostUsed, EffortWeight;
    hide Collects, IsSummary, IsCumulative, IsPeak, IsTop, Merged, AllBuckets, AllInvocations, ByWeek;
    hide Streaks.IsCurrent, Streaks.IsLongest, Streaks.ActiveDays, Streaks.TextSorted;
    var totals, fast, weights, efforts, collected, invocations := MergeProfiles(profiles);
    RunningSumsCollect(profiles, fast, weights, efforts);
    var effort := MostUsedEffort(efforts, profiles);
    MostUsedWeight(profiles, efforts, effort);
    var effortWeight := if effort in efforts then efforts[effort] else 0.0;
    var fastMode, effortPercent := 0.0, 0.0;
    if weights > 0.0 {
      fastMode := fast / weights;
      effortPercent := effortWeight / weights * 100.0;
    }
    assert collected.Keys == Starts(AllBuckets(profiles)) by { CollectedKeys(collected, AllBuckets(profiles)); }
    var dates := KeysInOrder(collected.Keys);
    var daily, cumulative, peak, byWeek := DateLoop(dates, collected);
    ListingIsSummary(daily, dates, collected, AllBuckets(profiles));
    var weeks := KeysInOrder(byWeek.Keys);
    var weekly := BucketsInOrder(weeks, byWeek);
    ListingIsSummary(weekly, weeks, byWeek, ByWeek(daily));
    var current, longest := Streaks.MergedStreaks(dates, today);
    var top := TopInvocations(invocations);
    c := totals.(fastMode := fastMode, effort := effort, effortPercent := effortPercent,
                 daily := daily, cumulative := cumulative, peak := peak, weekly := weekly,
                 current := current, longest := longest, top := top);
    TotalsOnly(profiles, totals, c);
    AveragesFrom(profiles, fast, weights, efforts, c);
  }

  lemma RunningSumsCollect(profiles: seq<Stats>, fast: real, weights: real, efforts: map<string, real>)
    requires RunningSums(profiles, fast, weights, efforts)
    ensures CollectsEfforts(efforts, profiles)
  {
  }

  lemma MostUsedWeight(profiles: seq<Stats>, efforts: map<string, real>, effort: string)
    requires CollectsEfforts(efforts, profiles) && IsMostUsed(effort, profiles)
    ensures EffortWeight(profiles, effort) == if effort in efforts then efforts[effort] else 0.0
  {
    NoEffortWeighsNothing(profiles);
  }

  lemma AveragesFrom(profiles: seq<Stats>, fast: real, weights: real, efforts: map<string, real>, c: Combined)
    requires RunningSums(profiles, fast, weights, efforts) && IsMostUsed(c.effort, profiles)
    requires c.fastMode == Mean(fast, weights)
    requires c.effortPercent == Mean(EffortWeight(profiles, c.effort), weights) * 100.0
    ensures AveragesAre(profiles, c)
  {
    hide IsMostUsed, CollectsEfforts, EffortWeight;
  }

  lemma CollectedKeys(m: map<string, int>, buckets: seq<Bucket>)
    requires Collects(m, buckets)
    ensures m.Keys == Starts(buckets)
  {
  }

  lemma TotalsOnly(profiles: seq<Stats>, c: Combined, d: Combined)
    requires TotalsAre(profiles, c)
    requires (c.lifetimeTokens, c.totalThreads, c.totalSkills, c.uniqueSkills, c.longestTurn) ==
             (d.lifetimeTokens, d.totalThreads, d.totalSkills, d.uniqueSkills, d.longestTurn)
    ensures TotalsAre(profiles, d)
  {
  }
}
