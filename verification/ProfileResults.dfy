/** What the merged profile keeps of its inputs: tokens, weeks, usage counts, and independence of their order. */
module ProfileResults {
  import opened Accounts
  import opened Averages
  import opened Calendar
  import opened Collections
  import opened Sums
  import opened Profile
  import Streaks
  import StableSort

  // ---- Tokens ----

  function Always(): string -> bool {
    s => true
  }

  lemma WhereAlways(buckets: seq<Bucket>)
    ensures SumBy(buckets, Where(Always())) == SumBy(buckets, TokensOf)
  {
    SumByCongruent(buckets, Where(Always()), TokensOf);
  }

  /** Each day adds its tokens to those before it. */
  ghost predicate AddsUp(cumulative: seq<Bucket>, daily: seq<Bucket>) {
    |cumulative| == |daily| && forall i :: 0 <= i < |daily| ==>
      && cumulative[i].startDate == daily[i].startDate
      && cumulative[i].tokens == (if i == 0 then 0 else cumulative[i - 1].tokens) + daily[i].tokens
  }

  /** Daily buckets are in order of date, hold exactly the input tokens of each input date, and so all of them;
      the cumulative buckets are their prefix sums and end on that total. */
  lemma TokensConserved(profiles: seq<Stats>, c: Combined)
    requires IsSummary(c.daily, AllBuckets(profiles)) && IsCumulative(c.cumulative, c.daily)
    ensures Streaks.TextSorted(StartTexts(c.daily)) && Starts(c.daily) == Starts(AllBuckets(profiles))
    ensures forall b :: b in c.daily ==> b.tokens == TokensOn(AllBuckets(profiles), b.startDate)
    ensures SumBy(c.daily, TokensOf) == SumBy(AllBuckets(profiles), TokensOf)
    ensures |c.cumulative| == |c.daily| && AddsUp(c.cumulative, c.daily)
    ensures c.daily != [] ==> c.cumulative[|c.daily| - 1].tokens == SumBy(AllBuckets(profiles), TokensOf)
  {
    hide Streaks.TextSorted, TokensOn, Starts, AllBuckets, IsCumulative, AddsUp;
    SummaryConserves(c.daily, AllBuckets(profiles), Always());
    WhereAlways(c.daily);
    WhereAlways(AllBuckets(profiles));
    CumulativeSteps(c.cumulative, c.daily);
  }

  lemma CumulativeSteps(cumulative: seq<Bucket>, daily: seq<Bucket>)
    requires IsCumulative(cumulative, daily)
    ensures |cumulative| == |daily| && AddsUp(cumulative, daily)
    ensures daily != [] ==> cumulative[|daily| - 1].tokens == SumBy(daily, TokensOf)
  {
    assert daily[..|daily|] == daily;
    forall i | 0 <= i < |daily|
      ensures cumulative[i].startDate == daily[i].startDate
      ensures cumulative[i].tokens == (if i == 0 then 0 else cumulative[i - 1].tokens) + daily[i].tokens
    {
      CumulativeStep(cumulative, daily, i);
    }
  }

  lemma CumulativeStep(cumulative: seq<Bucket>, daily: seq<Bucket>, i: nat)
    requires i < |daily| && IsCumulative(cumulative, daily)
    ensures cumulative[i] ==
            Bucket(daily[i].startDate, (if i == 0 then 0 else cumulative[i - 1].tokens) + daily[i].tokens)
  {
    assert daily[..i + 1] == daily[..i] + [daily[i]];
    SumBySnoc(daily[..i], daily[i], TokensOf);
    assert TokensOf(daily[i]) == daily[i].tokens;
  }

  // ---- Weeks ----

  function Parses(): string -> bool {
    s => Parse(s).Some?
  }

  /** Whether a date lies in the seven days from `monday` on. */
  function DuringWeek(monday: Day): string -> bool {
    s => Parse(s).Some? && Ordinal(monday) <= Ordinal(Parse(s).value) < Ordinal(monday) + 7
  }

  function Equals(text: string): string -> bool {
    s => s == text
  }

  function WeekIn(p: string -> bool): string -> bool {
    s => WeekOf(s).Some? && p(WeekOf(s).value)
  }

  lemma {:induction false} ByWeekSums(buckets: seq<Bucket>, p: string -> bool)
    ensures SumBy(ByWeek(buckets), Where(p)) == SumBy(buckets, Where(WeekIn(p)))
  {
    hide WeekOf;
    if buckets != [] {
      var init, b := buckets[..|buckets| - 1], buckets[|buckets| - 1];
      ByWeekSums(init, p);
      var week := WeekOf(b.startDate);
      if week.Some? {
        SumBySnoc(ByWeek(init), Bucket(week.value, b.tokens), Where(p));
      } else {
        assert ByWeek(buckets) == ByWeek(init);
      }
    }
  }

  lemma {:induction false} ByWeekStarts(buckets: seq<Bucket>, text: string)
    ensures text in Starts(ByWeek(buckets)) <==> exists b :: b in buckets && WeekOf(b.startDate) == Some(text)
  {
    hide WeekOf, Starts;
    if buckets == [] {
      assert text !in Starts(ByWeek(buckets)) by { NoStarts(text); }
    } else {
      var init, last := buckets[..|buckets| - 1], buckets[|buckets| - 1];
      ByWeekStarts(init, text);
      assert buckets == init + [last];
      var week := WeekOf(last.startDate);
      if week.Some? {
        StartsSnoc(ByWeek(init), Bucket(week.value, last.tokens));
      } else {
        assert ByWeek(buckets) == ByWeek(init);
      }
      assert forall b :: b in buckets <==> b in init || b == last;
    }
  }

  lemma NoStarts(text: string)
    ensures text !in Starts([])
  {
  }

  /** A date is counted under the text of `monday` exactly when it lies in that week. */
  lemma WeekOfIff(date: string, monday: Day)
    requires IsMonday(monday)
    ensures WeekOf(date) == Some(Format(monday)) <==> DuringWeek(monday)(date)
  {
    hide Format, Parse, Ordinal, WeekStart;
    if Parse(date).Some? {
      OneWeek(Parse(date).value, monday);
      if WeekOf(date) == Some(Format(monday)) {
        FormatInjective(monday, WeekStart(Parse(date).value));
      }
    }
  }

  lemma WeekTokens(c: Combined, buckets: seq<Bucket>, monday: Day)
    requires IsSummary(c.daily, buckets) && IsMonday(monday)
    ensures TokensOn(ByWeek(c.daily), Format(monday)) == SumBy(buckets, Where(DuringWeek(monday)))
  {
    hide IsSummary, ByWeek, WeekOf, DuringWeek, Format, IsMonday;
    var text := Format(monday);
    forall b: Bucket ensures Restrict(StartOf, TokensOf, text)(b) == Where(Equals(text))(b) {
      assert StartOf(b) == b.startDate && TokensOf(b) == b.tokens;
    }
    SumByCongruent(ByWeek(c.daily), Restrict(StartOf, TokensOf, text), Where(Equals(text)));
    ByWeekSums(c.daily, Equals(text));
    SummaryConserves(c.daily, buckets, WeekIn(Equals(text)));
    forall b | b in buckets ensures Where(WeekIn(Equals(text)))(b) == Where(DuringWeek(monday))(b) {
      WeekOfIff(b.startDate, monday);
    }
    SumByCongruent(buckets, Where(WeekIn(Equals(text))), Where(DuringWeek(monday)));
  }

  lemma MondayOfBucket(daily: seq<Bucket>, text: string) returns (monday: Day)
    requires text in Starts(ByWeek(daily))
    ensures IsMonday(monday) && Format(monday) == text
  {
    hide Format, Parse, Ordinal, WeekStart, IsMonday, Starts, ByWeek;
    ByWeekStarts(daily, text);
    var b :| b in daily && WeekOf(b.startDate) == Some(text);
    monday := WeekStart(Parse(b.startDate).value);
    OneWeek(Parse(b.startDate).value, monday);
  }

  lemma DateHasBucket(buckets: seq<Bucket>, x: Bucket)
    requires x in buckets
    ensures x.startDate in Starts(buckets)
  {
    var i :| 0 <= i < |buckets| && buckets[i] == x;
  }

  lemma StartHasBucket(buckets: seq<Bucket>, date: string) returns (x: Bucket)
    requires date in Starts(buckets)
    ensures x in buckets && x.startDate == date
  {
    var i :| 0 <= i < |buckets| && buckets[i].startDate == date;
    x := buckets[i];
  }

  /** The tokens of one weekly bucket are the input tokens of the seven days from its Monday. */
  ghost predicate HoldsItsWeek(b: Bucket, buckets: seq<Bucket>) {
    exists monday: Day ::
      IsMonday(monday) && Format(monday) == b.startDate && b.tokens == SumBy(buckets, Where(DuringWeek(monday)))
  }

  lemma WeeklyBucketHolds(profiles: seq<Stats>, c: Combined, b: Bucket)
    requires IsSummary(c.daily, AllBuckets(profiles)) && IsSummary(c.weekly, ByWeek(c.daily)) && b in c.weekly
    ensures HoldsItsWeek(b, AllBuckets(profiles))
  {
    hide Streaks.TextSorted, TokensOn, ByWeek, AllBuckets, Format, IsMonday, Starts, DuringWeek;
    DateHasBucket(c.weekly, b);
    var monday := MondayOfBucket(c.daily, b.startDate);
    WeekTokens(c, AllBuckets(profiles), monday);
  }

  lemma DayHasWeek(profiles: seq<Stats>, c: Combined, x: Bucket)
    requires IsSummary(c.daily, AllBuckets(profiles)) && IsSummary(c.weekly, ByWeek(c.daily))
    requires x in AllBuckets(profiles) && Parse(x.startDate).Some?
    ensures Format(WeekStart(Parse(x.startDate).value)) in Starts(c.weekly)
  {
    hide Streaks.TextSorted, TokensOn, ByWeek, AllBuckets, Format, Starts, Parse, WeekStart;
    DateHasBucket(AllBuckets(profiles), x);
    var b := StartHasBucket(c.daily, x.startDate);
    ByWeekStarts(c.daily, Format(WeekStart(Parse(x.startDate).value)));
  }

  /** Weekly buckets: one for each Monday-based week with a parseable date, in order of their texts, holding the
      input tokens of exactly that week's dates; together they hold the tokens of all parseable dates. */
  lemma WeeksConserved(profiles: seq<Stats>, c: Combined)
    requires IsSummary(c.daily, AllBuckets(profiles)) && IsSummary(c.weekly, ByWeek(c.daily))
    ensures Streaks.TextSorted(StartTexts(c.weekly))
    ensures forall b :: b in c.weekly ==> HoldsItsWeek(b, AllBuckets(profiles))
    ensures forall x :: x in AllBuckets(profiles) && Parse(x.startDate).Some? ==>
      Format(WeekStart(Parse(x.startDate).value)) in Starts(c.weekly)
    ensures SumBy(c.weekly, TokensOf) == SumBy(AllBuckets(profiles), Where(Parses()))
  {
    hide Streaks.TextSorted, TokensOn, ByWeek, AllBuckets, Format, Starts, Parse, WeekStart, HoldsItsWeek;
    forall b | b in c.weekly ensures HoldsItsWeek(b, AllBuckets(profiles)) {
      WeeklyBucketHolds(profiles, c, b);
    }
    forall x | x in AllBuckets(profiles) && Parse(x.startDate).Some?
      ensures Format(WeekStart(Parse(x.startDate).value)) in Starts(c.weekly)
    {
      DayHasWeek(profiles, c, x);
    }
    WeeklyTotal(c.daily, c.weekly, AllBuckets(profiles));
  }

  lemma WeeklyTotal(daily: seq<Bucket>, weekly: seq<Bucket>, buckets: seq<Bucket>)
    requires IsSummary(daily, buckets) && IsSummary(weekly, ByWeek(daily))
    ensures SumBy(weekly, TokensOf) == SumBy(buckets, Where(Parses()))
  {
    hide IsSummary, ByWeek, Parse, Format, WeekStart;
    SummaryConserves(weekly, ByWeek(daily), Always());
    WhereAlways(weekly);
    ByWeekSums(daily, Always());
    SummaryConserves(daily, buckets, WeekIn(Always()));
    forall b: Bucket ensures Where(WeekIn(Always()))(b) == Where(Parses())(b) {
      assert WeekOf(b.startDate).Some? ==> Always()(WeekOf(b.startDate).value);
      assert WeekIn(Always())(b.startDate) == Parses()(b.startDate);
    }
    SumByCongruent(buckets, Where(WeekIn(Always())), Where(Parses()));
  }

  // ---- Order of the profiles ----

  lemma PeakUnique<T>(s: seq<T>, t: seq<T>, f: T -> int, peak: int, other: int)
    requires multiset(s) == multiset(t) && IsPeak(peak, s, f) && IsPeak(other, t, f)
    ensures peak == other
  {
    forall x ensures x in s <==> x in t {
      assert x in s <==> x in multiset(s);
      assert x in t <==> x in multiset(t);
    }
  }

  lemma TotalsOrderFree(profiles: seq<Stats>, permuted: seq<Stats>, c: Combined, d: Combined)
    requires multiset(profiles) == multiset(permuted) && TotalsAre(profiles, c) && TotalsAre(permuted, d)
    ensures (c.lifetimeTokens, c.totalThreads, c.totalSkills, c.uniqueSkills, c.longestTurn) ==
            (d.lifetimeTokens, d.totalThreads, d.totalSkills, d.uniqueSkills, d.longestTurn)
  {
    hide IsPeak, SumBy;
    SumByPermutes(profiles, permuted, LifetimeOf);
    SumByPermutes(profiles, permuted, ThreadsOf);
    SumByPermutes(profiles, permuted, SkillsOf);
    SumByPermutes(profiles, permuted, UniqueOf);
    PeakUnique(profiles, permuted, TurnOf, c.longestTurn, d.longestTurn);
  }

  lemma CumulativeUnique(a: seq<Bucket>, b: seq<Bucket>, daily: seq<Bucket>)
    requires IsCumulative(a, daily) && IsCumulative(b, daily)
    ensures a == b
  {
  }

  lemma WeeklyUnique(daily: seq<Bucket>, weekly: seq<Bucket>, other: seq<Bucket>)
    requires IsSummary(weekly, ByWeek(daily)) && IsSummary(other, ByWeek(daily))
    ensures weekly == other
  {
    hide IsSummary, ByWeek;
    SummaryOrderFree(weekly, ByWeek(daily), other, ByWeek(daily));
  }

  lemma EffortWeightOrderFree(profiles: seq<Stats>, permuted: seq<Stats>, effort: string)
    requires multiset(profiles) == multiset(permuted)
    ensures EffortWeight(profiles, effort) == EffortWeight(permuted, effort)
    ensures effort in Efforts(profiles) ==> effort in Efforts(permuted)
  {
    RealSumPermutes(profiles, permuted, EffortShareOf(effort));
    if effort in Efforts(profiles) {
      var i :| 0 <= i < |profiles| && profiles[i].effort == effort && effort != "";
      assert profiles[i] in multiset(permuted);
      var k :| 0 <= k < |permuted| && permuted[k] == profiles[i];
    }
  }

  /** Of two most used efforts neither has the greater weight. */
  lemma MostUsedWeighAlike(profiles: seq<Stats>, permuted: seq<Stats>, effort: string, other: string)
    requires multiset(profiles) == multiset(permuted) && IsMostUsed(effort, profiles) && IsMostUsed(other, permuted)
    ensures EffortWeight(profiles, effort) == EffortWeight(permuted, other)
    ensures effort in Efforts(profiles) <==> other in Efforts(permuted)
  {
    hide EffortWeight, Efforts;
    EffortWeightOrderFree(profiles, permuted, effort);
    EffortWeightOrderFree(permuted, profiles, other);
    NoEffortWeighsNothing(profiles);
    NoEffortWeighsNothing(permuted);
  }

  /** The averages do not depend on the order of the profiles, nor does the most used effort unless weights tie. */
  lemma AveragesOrderFree(profiles: seq<Stats>, permuted: seq<Stats>, c: Combined, d: Combined)
    requires multiset(profiles) == multiset(permuted) && AveragesAre(profiles, c) && AveragesAre(permuted, d)
    ensures c.fastMode == d.fastMode && c.effortPercent == d.effortPercent
    ensures EffortWeight(profiles, c.effort) == EffortWeight(profiles, d.effort)
    ensures (forall e :: e in Efforts(profiles) && e != c.effort ==>
               EffortWeight(profiles, e) < EffortWeight(profiles, c.effort)) ==> c.effort == d.effort
  {
    hide EffortWeight, Efforts;
    RealSumPermutes(profiles, permuted, FastShareOf);
    RealSumPermutes(profiles, permuted, WeightOf);
    MostUsedWeighAlike(profiles, permuted, c.effort, d.effort);
    EffortWeightOrderFree(permuted, profiles, d.effort);
    EffortWeightOrderFree(permuted, profiles, c.effort);
    NoEffortWeighsNothing(profiles);
  }

  lemma WeightsPositive(profiles: seq<Stats>)
    ensures forall s :: s in profiles ==> WeightOf(s) > 0.0
    ensures RealSum(profiles, WeightOf) >= 0.0
    ensures profiles != [] ==> RealSum(profiles, WeightOf) > 0.0
  {
    if profiles != [] {
      RealSumPositive(profiles, WeightOf);
    }
  }

  lemma Scaled(low: real, x: real, high: real, weight: real)
    requires low <= x <= high && weight > 0.0
    ensures low * weight <= x * weight <= high * weight
  {
  }

  lemma MeanWithin(low: real, high: real, total: real, weight: real)
    requires weight > 0.0 && low * weight <= total <= high * weight
    ensures low <= Mean(total, weight) <= high
  {
    MeanBounds(low, high, total, weight);
  }

  lemma FastShareWithin(s: Stats, low: real, high: real)
    requires low <= s.fastMode <= high && WeightOf(s) > 0.0
    ensures low * WeightOf(s) <= FastShareOf(s) <= high * WeightOf(s)
  {
    hide WeightOf;
    Scaled(low, s.fastMode, high, WeightOf(s));
  }

  lemma EffortShareWithin(s: Stats, effort: string)
    requires 0.0 <= s.effortPercent <= 100.0 && WeightOf(s) > 0.0
    ensures 0.0 * WeightOf(s) <= EffortShareOf(effort)(s) <= 1.0 * WeightOf(s)
  {
    hide WeightOf;
    Scaled(0.0, s.effortPercent, 100.0, WeightOf(s));
  }

  /** The combined fast-mode percentage lies between those of the profiles. */
  lemma FastModeWithinBounds(profiles: seq<Stats>, c: Combined, low: real, high: real)
    requires profiles != [] && AveragesAre(profiles, c)
    requires forall s :: s in profiles ==> low <= s.fastMode <= high
    ensures low <= c.fastMode <= high
  {
    hide IsMostUsed, EffortWeight, WeightOf, FastShareOf, Mean, RealSum;
    WeightsPositive(profiles);
    forall s | s in profiles ensures low * WeightOf(s) <= FastShareOf(s) <= high * WeightOf(s) {
      FastShareWithin(s, low, high);
    }
    RealSumBounds(profiles, FastShareOf, WeightOf, low, high);
    MeanWithin(low, high, RealSum(profiles, FastShareOf), RealSum(profiles, WeightOf));
  }

  function FastThreads(): Stats -> real {
    (s: Stats) => s.fastMode * s.totalThreads as real
  }

  function EffortThreads(effort: string): Stats -> real {
    (s: Stats) => if s.effort == effort then s.effortPercent * s.totalThreads as real else 0.0
  }

  lemma {:induction false} ThreadsAreWeights(profiles: seq<Stats>)
    requires forall s :: s in profiles ==> s.totalThreads > 0
    ensures RealSum(profiles, WeightOf) == SumBy(profiles, ThreadsOf) as real
    ensures RealSum(profiles, FastShareOf) == RealSum(profiles, FastThreads())
  {
    if profiles != [] {
      var init, s := profiles[..|profiles| - 1], profiles[|profiles| - 1];
      assert s in profiles;
      ThreadsAreWeights(init);
      assert FastThreads()(s) == FastShareOf(s);
    }
  }

  lemma {:induction false} EffortThreadsSum(profiles: seq<Stats>, effort: string)
    requires forall s :: s in profiles ==> s.totalThreads > 0
    ensures RealSum(profiles, EffortShareOf(effort)) * 100.0 == RealSum(profiles, EffortThreads(effort))
  {
    if profiles != [] {
      var init, s := profiles[..|profiles| - 1], profiles[|profiles| - 1];
      assert s in profiles;
      EffortThreadsSum(init, effort);
      Percent(s.effortPercent * s.totalThreads as real);
      assert EffortShareOf(effort)(s) * 100.0 == EffortThreads(effort)(s);
    }
  }

  lemma Percent(x: real)
    ensures x / 100.0 * 100.0 == x
  {
  }

  lemma MeanTimesWeight(total: real, weight: real)
    requires weight > 0.0
    ensures Mean(total, weight) * weight == total
    ensures Mean(total, weight) * 100.0 * weight == total * 100.0
  {
  }

  /** Both percentages are averages over threads: times all threads they give the thread-weighted sums. */
  lemma AveragesCountThreads(profiles: seq<Stats>, c: Combined)
    requires profiles != [] && TotalsAre(profiles, c) && AveragesAre(profiles, c)
    requires forall s :: s in profiles ==> s.totalThreads > 0
    ensures c.fastMode * c.totalThreads as real == RealSum(profiles, FastThreads())
    ensures c.effort != "" ==> c.effortPercent * c.totalThreads as real == RealSum(profiles, EffortThreads(c.effort))
  {
    hide IsMostUsed, WeightOf, FastShareOf, EffortShareOf, Mean, RealSum, SumBy, IsPeak;
    ThreadsAreWeights(profiles);
    EffortThreadsSum(profiles, c.effort);
    assert RealSum(profiles, WeightOf) > 0.0 by { WeightsPositive(profiles); }
    MeanTimesWeight(RealSum(profiles, FastShareOf), RealSum(profiles, WeightOf));
    MeanTimesWeight(EffortWeight(profiles, c.effort), RealSum(profiles, WeightOf));
  }

  /** A profile without threads weighs as much as one with a single thread. */
  lemma ThreadlessCountsAsOne(profiles: seq<Stats>, i: nat, c: Combined)
    requires i < |profiles| && profiles[i].totalThreads <= 0
    ensures AveragesAre(profiles, c) <==> AveragesAre(profiles[i := profiles[i].(totalThreads := 1)], c)
  {
    var one := profiles[i := profiles[i].(totalThreads := 1)];
    hide IsMostUsed, Mean, RealSum;
    SameSums(profiles, one, WeightOf);
    SameSums(profiles, one, FastShareOf);
    forall effort ensures EffortWeight(profiles, effort) == EffortWeight(one, effort) {
      SameSums(profiles, one, EffortShareOf(effort));
    }
    assert Efforts(profiles) == Efforts(one) by {
      assert forall k :: 0 <= k < |profiles| ==> one[k].effort == profiles[k].effort;
    }
    SameMostUsed(profiles, one, c.effort);
  }

  lemma SameMostUsed(profiles: seq<Stats>, other: seq<Stats>, effort: string)
    requires Efforts(profiles) == Efforts(other)
    requires forall e :: EffortWeight(profiles, e) == EffortWeight(other, e)
    ensures IsMostUsed(effort, profiles) <==> IsMostUsed(effort, other)
  {
    hide Efforts, EffortWeight;
  }

  lemma {:induction false} SameSums<T>(a: seq<T>, b: seq<T>, f: T -> real)
    requires |a| == |b| && forall k :: 0 <= k < |a| ==> f(a[k]) == f(b[k])
    ensures RealSum(a, f) == RealSum(b, f)
  {
    if a != [] {
      SameSums(a[..|a| - 1], b[..|b| - 1], f);
    }
  }

  /** With one profile the report repeats its figures. */
  lemma SingleProfile(s: Stats, c: Combined)
    requires TotalsAre([s], c) && AveragesAre([s], c)
    ensures c.lifetimeTokens == s.lifetimeTokens && c.totalThreads == s.totalThreads
    ensures c.totalSkills == s.totalSkills && c.uniqueSkills == s.uniqueSkills
    ensures c.longestTurn == if s.longestTurn > 0 then s.longestTurn else 0
    ensures c.fastMode == s.fastMode
    ensures s.effort != "" && s.effortPercent > 0.0 ==> c.effort == s.effort && c.effortPercent == s.effortPercent
  {
    assert s in [s];
    OneTerm(s, LifetimeOf);
    OneTerm(s, ThreadsOf);
    OneTerm(s, SkillsOf);
    OneTerm(s, UniqueOf);
    OneRealTerm(s, FastShareOf);
    OneRealTerm(s, WeightOf);
    OneRealTerm(s, EffortShareOf(s.effort));
    hide WeightOf, SumBy, RealSum;
    WeightsPositive([s]);
    MeanOfOne(s.fastMode, WeightOf(s));
    MeanOfOne(s.effortPercent, WeightOf(s));
    assert Efforts([s]) == if s.effort == "" then {} else {s.effort} by {
      assert [s][0] == s;
    }
  }

  lemma OneTerm(s: Stats, f: Stats -> int)
    ensures SumBy([s], f) == f(s)
  {
    assert [s] == [] + [s];
    SumBySnoc([], s, f);
  }

  lemma OneRealTerm(s: Stats, f: Stats -> real)
    ensures RealSum([s], f) == f(s)
  {
    assert [s] == [] + [s];
    RealSumSnoc([], s, f);
  }

  lemma MeanOfOne(x: real, weight: real)
    requires weight > 0.0
    ensures Mean(x * weight, weight) == x && Mean(x * weight / 100.0, weight) * 100.0 == x
    ensures x > 0.0 ==> x * weight / 100.0 > 0.0
  {
    Divide(x, weight);
    Divide(x / 100.0, weight);
    assert x * weight / 100.0 == (x / 100.0) * weight;
  }

  lemma Divide(x: real, weight: real)
    requires weight > 0.0
    ensures x * weight / weight == x
    ensures x > 0.0 ==> x * weight > 0.0
  {
  }

  /** Totals of two groups of profiles add up; the longest turn of both is the longer one. */
  lemma TotalsAdd(a: seq<Stats>, b: seq<Stats>, c: Combined, d: Combined, e: Combined)
    requires TotalsAre(a, c) && TotalsAre(b, d) && TotalsAre(a + b, e)
    ensures e.lifetimeTokens == c.lifetimeTokens + d.lifetimeTokens && e.totalThreads == c.totalThreads + d.totalThreads
    ensures e.totalSkills == c.totalSkills + d.totalSkills && e.uniqueSkills == c.uniqueSkills + d.uniqueSkills
    ensures e.longestTurn == if c.longestTurn > d.longestTurn then c.longestTurn else d.longestTurn
  {
    hide SumBy;
    SumByConcat(a, b, LifetimeOf);
    SumByConcat(a, b, ThreadsOf);
    SumByConcat(a, b, SkillsOf);
    SumByConcat(a, b, UniqueOf);
    assert forall s :: s in a + b <==> s in a || s in b;
  }

  /** Percentages stay percentages. */
  lemma EffortPercentWithinBounds(profiles: seq<Stats>, c: Combined)
    requires AveragesAre(profiles, c) && forall s :: s in profiles ==> 0.0 <= s.effortPercent <= 100.0
    ensures 0.0 <= c.effortPercent <= 100.0
  {
    if profiles != [] && c.effort != "" {
      hide IsMostUsed, WeightOf, EffortShareOf, Mean, RealSum;
      WeightsPositive(profiles);
      var share := EffortShareOf(c.effort);
      forall s | s in profiles ensures 0.0 * WeightOf(s) <= share(s) <= 1.0 * WeightOf(s) {
        EffortShareWithin(s, c.effort);
      }
      RealSumBounds(profiles, share, WeightOf, 0.0, 1.0);
      MeanWithin(0.0, 1.0, RealSum(profiles, share), RealSum(profiles, WeightOf));
    }
  }

  /** Everything but the ranking of invocations is the same whatever the order in which profiles arrive, the most used
      effort up to ties. */
  lemma ReportOrderFree(profiles: seq<Stats>, permuted: seq<Stats>, today: Day, c: Combined, d: Combined)
    requires IsReport(profiles, today, c) && IsReport(permuted, today, d) && multiset(profiles) == multiset(permuted)
    ensures c.(top := d.top, effort := d.effort) == d
    ensures EffortWeight(profiles, c.effort) == EffortWeight(profiles, d.effort)
  {
    hide TotalsAre, AveragesAre, EffortWeight, IsSummary, IsTop, IsPeak, IsCumulative, ByWeek, Merged;
    hide Streaks.IsCurrent, Streaks.IsLongest, Streaks.ActiveDays, StartTexts;
    TotalsOrderFree(profiles, permuted, c, d);
    AveragesOrderFree(profiles, permuted, c, d);
    FlattenPermutes(profiles, permuted, BucketsOf);
    SummaryOrderFree(c.daily, AllBuckets(profiles), d.daily, AllBuckets(permuted));
    CumulativeUnique(c.cumulative, d.cumulative, c.daily);
    PeakUnique(c.daily, d.daily, TokensOf, c.peak, d.peak);
    WeeklyUnique(c.daily, c.weekly, d.weekly);
    Streaks.StreaksUnique(StartTexts(c.daily), today, c.current, d.current, c.longest, d.longest);
  }

  // ---- Invocations ----

  ghost predicate Typed(invocations: seq<Invocation>) {
    forall x :: x in invocations ==> x.kind != ""
  }

  function Occurs(invocations: seq<Invocation>, k: string): bool {
    exists i :: 0 <= i < |invocations| && Key(invocations[i]) == k
  }

  ghost predicate Untyped(invocations: seq<Invocation>, k: string) {
    forall i :: 0 <= i < |invocations| && Key(invocations[i]) == k ==> invocations[i].kind == ""
  }

  /** What is stored under a key: it has that key, and no type exactly when nothing seen under the key had one. */
  lemma {:induction false} Stored(invocations: seq<Invocation>, k: string)
    ensures k in Merged(invocations) <==> Occurs(invocations, k)
    ensures k in Merged(invocations) ==> Key(Merged(invocations)[k]) == k
    ensures k in Merged(invocations) ==> (Merged(invocations)[k].kind == "" <==> Untyped(invocations, k))
  {
    if invocations != [] {
      var init, x := invocations[..|invocations| - 1], invocations[|invocations| - 1];
      Stored(init, k);
      OccursSnoc(init, x, k);
      assert invocations == init + [x];
      hide Occurs, Untyped;
      if Key(x) == k && k in Merged(init) {
        var stored := Merged(init)[k];
        assert Key(stored.(usageCount := stored.usageCount + x.usageCount)) == Key(stored);
      }
    }
  }

  lemma OccursSnoc(init: seq<Invocation>, x: Invocation, k: string)
    ensures Occurs(init + [x], k) <==> Occurs(init, k) || Key(x) == k
    ensures Untyped(init + [x], k) <==> Untyped(init, k) && (Key(x) == k ==> x.kind == "")
    ensures !Occurs(init, k) ==> Untyped(init, k)
  {
    hide Key;
    var all := init + [x];
    assert all[|init|] == x;
    assert forall i :: 0 <= i < |init| ==> all[i] == init[i];
    if Occurs(init, k) {
      var i :| 0 <= i < |init| && Key(init[i]) == k;
      assert Key(all[i]) == k;
    }
    if Untyped(all, k) {
      forall i | 0 <= i < |init| && Key(init[i]) == k ensures init[i].kind == "" {
        assert Key(all[i]) == k;
      }
    }
  }

  function CountIn(m: map<string, Invocation>): string -> int {
    k => if k in m then m[k].usageCount else 0
  }

  /** The usage counts that were overwritten on the way. */
  function Lost(invocations: seq<Invocation>): int {
    if invocations == [] then 0
    else
      var before, x := Merged(invocations[..|invocations| - 1]), invocations[|invocations| - 1];
      Lost(invocations[..|invocations| - 1]) +
      (if Key(x) in before && before[Key(x)].kind == "" then before[Key(x)].usageCount else 0)
  }

  lemma MergeOneBalance(m: map<string, Invocation>, x: Invocation, order: seq<string>, before: seq<string>)
    requires Enumerates(order, MergeOne(m, x).Keys) && Enumerates(before, m.Keys)
    ensures SumBy(order, CountIn(MergeOne(m, x))) + (if Key(x) in m && m[Key(x)].kind == "" then m[Key(x)].usageCount else 0)
            == SumBy(before, CountIn(m)) + x.usageCount
  {
    hide Key;
    var k, f, g := Key(x), CountIn(m), CountIn(MergeOne(m, x));
    assert forall y :: y != k ==> f(y) == g(y);
    if k in m {
      EnumerationsPermute(order, before, m.Keys);
      SumByPoint(before, f, g, k);
      SumByPermutes(order, before, g);
    } else {
      assert Distinct(before + [k]);
      assert MergeOne(m, x).Keys == m.Keys + {k};
      assert forall y :: y in before + [k] <==> y in m.Keys + {k};
      EnumerationsPermute(order, before + [k], m.Keys + {k});
      SumByPermutes(order, before + [k], g);
      SumBySnoc(before, k, g);
      SumByCongruent(before, f, g);
    }
  }

  lemma EnumerationsPermute(a: seq<string>, b: seq<string>, keys: set<string>)
    requires Enumerates(a, keys) && Enumerates(b, keys)
    ensures multiset(a) == multiset(b)
  {
    forall x ensures multiset(a)[x] == multiset(b)[x] {
      DistinctOnce(a, x);
      DistinctOnce(b, x);
      assert x in a <==> x in b;
      assert x in multiset(a) <==> x in a;
      assert x in multiset(b) <==> x in b;
    }
  }

  lemma Enumeration(keys: set<string>) returns (order: seq<string>)
    ensures Enumerates(order, keys) && |order| == |keys|
    decreases |keys|
  {
    if keys == {} {
      order := [];
    } else {
      var k :| k in keys;
      var rest := Enumeration(keys - {k});
      order := rest + [k];
    }
  }

  /** For every input: the merged counts fall short of the input counts by exactly the overwritten ones. */
  lemma {:induction false} UsageBalance(invocations: seq<Invocation>, order: seq<string>)
    requires Enumerates(order, Merged(invocations).Keys)
    ensures SumBy(order, CountIn(Merged(invocations))) + Lost(invocations) == SumBy(invocations, UsageOf)
  {
    hide MergeOne, Enumerates, CountIn;
    if invocations == [] {
      assert Merged(invocations).Keys == {};
      NothingEnumerated(order);
    } else {
      var init, x := invocations[..|invocations| - 1], invocations[|invocations| - 1];
      var before := Enumeration(Merged(init).Keys);
      UsageBalance(init, before);
      MergeOneBalance(Merged(init), x, order, before);
    }
  }

  lemma NothingEnumerated(order: seq<string>)
    requires Enumerates(order, {})
    ensures order == []
  {
    EnumerationSize(order, {});
  }

  ghost predicate Positive(invocations: seq<Invocation>) {
    forall i :: 0 <= i < |invocations| ==> invocations[i].usageCount > 0
  }

  /** Invocation `j` overwrites: its key was seen before, never with a type. */
  ghost predicate Overwrites(invocations: seq<Invocation>, j: nat)
    requires j < |invocations|
  {
    Occurs(invocations[..j], Key(invocations[j])) && Untyped(invocations[..j], Key(invocations[j]))
  }

  ghost predicate NoneOverwrites(invocations: seq<Invocation>) {
    forall j :: 0 <= j < |invocations| ==> !Overwrites(invocations, j)
  }

  lemma NoneOverwritesSnoc(init: seq<Invocation>, x: Invocation)
    ensures NoneOverwrites(init + [x]) <==> NoneOverwrites(init) && !(Occurs(init, Key(x)) && Untyped(init, Key(x)))
  {
    hide Occurs, Untyped, Key;
    var all := init + [x];
    assert all[..|init|] == init && all[|init|] == x;
    forall j | 0 <= j < |init| ensures Overwrites(all, j) <==> Overwrites(init, j) {
      assert all[..j] == init[..j] && all[j] == init[j];
    }
    assert Overwrites(all, |init|) <==> Occurs(init, Key(x)) && Untyped(init, Key(x));
  }

  lemma {:induction false} StoredPositive(invocations: seq<Invocation>, k: string)
    requires Positive(invocations) && k in Merged(invocations)
    ensures Merged(invocations)[k].usageCount > 0
  {
    hide Key;
    var init, x := invocations[..|invocations| - 1], invocations[|invocations| - 1];
    assert Positive(init);
    if k in Merged(init) {
      StoredPositive(init, k);
    }
  }

  lemma {:induction false} LostIff(invocations: seq<Invocation>)
    requires Positive(invocations)
    ensures Lost(invocations) >= 0 && (Lost(invocations) == 0 <==> NoneOverwrites(invocations))
  {
    hide Occurs, Untyped, Key, Merged, NoneOverwrites;
    if invocations == [] {
      NoneOverwritesNothing();
    } else {
      var init, x := invocations[..|invocations| - 1], invocations[|invocations| - 1];
      assert invocations == init + [x];
      LostIff(init);
      NoneOverwritesSnoc(init, x);
      Stored(init, Key(x));
      if Key(x) in Merged(init) {
        StoredPositive(init, Key(x));
      }
    }
  }

  lemma NoneOverwritesNothing()
    ensures NoneOverwrites([])
  {
  }

  /** For positive counts: usage is conserved exactly when no invocation follows untyped ones of its key only. */
  lemma UsageConservedIff(invocations: seq<Invocation>, order: seq<string>)
    requires Positive(invocations) && Enumerates(order, Merged(invocations).Keys)
    ensures SumBy(order, CountIn(Merged(invocations))) == SumBy(invocations, UsageOf) <==> NoneOverwrites(invocations)
  {
    hide NoneOverwrites, Merged, CountIn, SumBy, Enumerates, Lost;
    UsageBalance(invocations, order);
    LostIff(invocations);
  }

  /** The text of an optional id: what it holds, or the empty text. */
  predicate TextIs(value: Option<string>, text: string) {
    match value
    case Some(v) => text == v
    case None => text == ""
  }

  /** Without a bar in type and plugin id, two invocations share a key exactly when type, plugin and skill agree, an
      absent id counting as an empty one. */
  lemma KeyIff(x: Invocation, y: Invocation, p: string, q: string, s: string, t: string)
    requires TextIs(x.pluginID, p) && TextIs(y.pluginID, q) && TextIs(x.skillID, s) && TextIs(y.skillID, t)
    requires forall text :: text in {x.kind, y.kind, p, q} ==> '|' !in text
    ensures Key(x) == Key(y) <==> x.kind == y.kind && p == q && s == t
  {
    assert Key(x) == x.kind + "|" + (p + "|" + s) && Key(y) == y.kind + "|" + (q + "|" + t);
    assert '|' !in x.kind && '|' !in y.kind && '|' !in p && '|' !in q by {
      assert x.kind in {x.kind, y.kind, p, q} && y.kind in {x.kind, y.kind, p, q};
      assert p in {x.kind, y.kind, p, q} && q in {x.kind, y.kind, p, q};
    }
    if Key(x) == Key(y) {
      SplitAtBar(x.kind, p + "|" + s, y.kind, q + "|" + t);
      SplitAtBar(p, s, q, t);
    }
  }

  lemma SplitAtBar(a: string, b: string, c: string, d: string)
    requires a + "|" + b == c + "|" + d && '|' !in a && '|' !in c
    ensures a == c && b == d
  {
    var s, t := a + "|" + b, c + "|" + d;
    assert s[|a|] == '|' && t[|c|] == '|';
    assert forall i :: 0 <= i < |a| ==> s[i] == a[i];
    assert forall i :: 0 <= i < |c| ==> t[i] == c[i];
    assert |a| == |c|;
    assert s[..|a|] == a && t[..|c|] == c && s[|a| + 1..] == b && t[|c| + 1..] == d;
  }

  /** A bar in a plugin id makes two different invocations share a key. */
  lemma BarsCollide()
    ensures var x := Invocation("skill", Some("a|b"), None, Some("c"), None, 1);
      var y := Invocation("skill", Some("a"), None, Some("b|c"), None, 1);
      Key(x) == Key(y) && Merged([x, y]) == map[Key(x) := x.(usageCount := 2)]
  {
    var x := Invocation("skill", Some("a|b"), None, Some("c"), None, 1);
    var y := Invocation("skill", Some("a"), None, Some("b|c"), None, 1);
    assert Key(x) == "skill|a|b|c" == Key(y);
    hide Key;
    assert [x, y][..1] == [x] && [x][..0] == [];
    assert Merged([x]) == map[Key(x) := x];
  }

  /** What is stored under a key: the first typed invocation of that key, with the usage of all of the key from there
      on; without a typed one the last untyped one, with its own usage. */
  lemma {:induction false} MergedIsFirstTyped(invocations: seq<Invocation>, k: string, i: nat)
    requires i < |invocations| && Key(invocations[i]) == k && invocations[i].kind != ""
    requires Untyped(invocations[..i], k)
    ensures k in Merged(invocations)
    ensures Merged(invocations)[k] == invocations[i].(usageCount := ClassTotal(invocations[i..], Key, UsageOf, k))
  {
    hide Key, Untyped;
    var init, x := invocations[..|invocations| - 1], invocations[|invocations| - 1];
    Stored(init, Key(x));
    UsageSnoc(if i < |init| then init[i..] else [], x, k);
    if i < |init| {
      assert init[..i] == invocations[..i];
      MergedIsFirstTyped(init, k, i);
      assert invocations[i..] == init[i..] + [x];
    } else {
      assert invocations[..i] == init && invocations[i..] == [] + [x];
    }
  }

  lemma UsageSnoc(invocations: seq<Invocation>, x: Invocation, k: string)
    ensures ClassTotal(invocations + [x], Key, UsageOf, k) ==
            ClassTotal(invocations, Key, UsageOf, k) + (if Key(x) == k then x.usageCount else 0)
    ensures ClassTotal([], Key, UsageOf, k) == 0
  {
    SumBySnoc(invocations, x, Restrict(Key, UsageOf, k));
    RestrictedUsage(x, k);
  }

  lemma {:induction false} MergedIsLastUntyped(invocations: seq<Invocation>, k: string, i: nat)
    requires i < |invocations| && Key(invocations[i]) == k && Untyped(invocations, k)
    requires forall j :: i < j < |invocations| ==> Key(invocations[j]) != k
    ensures k in Merged(invocations) && Merged(invocations)[k] == invocations[i]
  {
    hide Key, Untyped;
    var init, x := invocations[..|invocations| - 1], invocations[|invocations| - 1];
    assert invocations == init + [x];
    OccursSnoc(init, x, k);
    Stored(init, Key(x));
    if i < |init| {
      MergedIsLastUntyped(init, k, i);
    }
  }

  /** Two untyped invocations of one key: the first count disappears. */
  lemma EmptyTypeOverwrites(x: Invocation, y: Invocation)
    requires x.kind == "" && Key(x) == Key(y)
    ensures Merged([x, y]) == map[Key(x) := y]
  {
    hide Key;
    assert [x, y][..1] == [x] && [x][..0] == [];
    assert Merged([x]) == map[Key(x) := x];
  }

  /** With types everywhere, each key's merged count is the sum of its input counts, in any order of the input. */
  lemma {:induction false} TypedCounts(invocations: seq<Invocation>, k: string)
    requires Typed(invocations)
    ensures (if k in Merged(invocations) then Merged(invocations)[k].usageCount else 0) ==
            ClassTotal(invocations, Key, UsageOf, k)
  {
    if invocations != [] {
      var init, x := invocations[..|invocations| - 1], invocations[|invocations| - 1];
      assert x in invocations && Typed(init);
      TypedCounts(init, k);
      Stored(init, Key(x));
      var m := Merged(init);
      if Key(x) in m {
        TypedStored(init, Key(x));
      }
      RestrictedUsage(x, k);
    }
  }

  lemma RestrictedUsage(x: Invocation, k: string)
    ensures Restrict(Key, UsageOf, k)(x) == if Key(x) == k then x.usageCount else 0
  {
    assert UsageOf(x) == x.usageCount;
  }

  lemma TypedStored(invocations: seq<Invocation>, k: string)
    requires Typed(invocations) && k in Merged(invocations)
    ensures Merged(invocations)[k].kind != ""
  {
    hide Key, Merged;
    Stored(invocations, k);
    var i :| 0 <= i < |invocations| && Key(invocations[i]) == k;
    assert invocations[i] in invocations;
  }

  /** With types everywhere nothing is lost, whatever the counts, and the counts do not depend on profile order. */
  lemma TypedUsageConserved(profiles: seq<Stats>, permuted: seq<Stats>, order: seq<string>)
    requires multiset(profiles) == multiset(permuted) && Typed(AllInvocations(profiles))
    requires Enumerates(order, Merged(AllInvocations(profiles)).Keys)
    ensures SumBy(order, CountIn(Merged(AllInvocations(profiles)))) == SumBy(AllInvocations(profiles), UsageOf)
    ensures Merged(AllInvocations(permuted)).Keys == Merged(AllInvocations(profiles)).Keys
    ensures forall k :: k in Merged(AllInvocations(profiles)) ==>
      Merged(AllInvocations(permuted))[k].usageCount == Merged(AllInvocations(profiles))[k].usageCount
  {
    hide Merged, Key, Enumerates, CountIn, Lost;
    var all, other := AllInvocations(profiles), AllInvocations(permuted);
    FlattenPermutes(profiles, permuted, InvocationsOf);
    assert multiset(all) == multiset(other);
    UsageBalance(all, order);
    TypedLosesNothing(all);
    assert forall k :: k in Merged(all) <==> k in Merged(other) by {
      forall k ensures k in Merged(all) <==> k in Merged(other) {
        TypedOrderFree(all, other, k);
      }
    }
    forall k | k in Merged(all) ensures Merged(other)[k].usageCount == Merged(all)[k].usageCount {
      TypedOrderFree(all, other, k);
    }
  }

  lemma TypedOrderFree(all: seq<Invocation>, other: seq<Invocation>, k: string)
    requires multiset(all) == multiset(other) && Typed(all)
    ensures k in Merged(all) <==> k in Merged(other)
    ensures k in Merged(all) ==> Merged(other)[k].usageCount == Merged(all)[k].usageCount
  {
    hide Merged, Key, Occurs, SumBy;
    forall x | x in other ensures x.kind != "" {
      assert x in multiset(all);
    }
    Stored(all, k);
    Stored(other, k);
    OccursOrderFree(all, other, k);
    OccursOrderFree(other, all, k);
    TypedCounts(all, k);
    TypedCounts(other, k);
    SumByPermutes(all, other, Restrict(Key, UsageOf, k));
  }

  lemma {:induction false} TypedLosesNothing(invocations: seq<Invocation>)
    requires Typed(invocations)
    ensures Lost(invocations) == 0
  {
    hide Key, Merged;
    if invocations != [] {
      var init, x := invocations[..|invocations| - 1], invocations[|invocations| - 1];
      TypedLosesNothing(init);
      if Key(x) in Merged(init) {
        TypedStored(init, Key(x));
      }
    }
  }

  lemma OccursOrderFree(a: seq<Invocation>, b: seq<Invocation>, k: string)
    requires multiset(a) == multiset(b)
    ensures Occurs(a, k) ==> Occurs(b, k)
  {
    hide Key;
    if Occurs(a, k) {
      var i :| 0 <= i < |a| && Key(a[i]) == k;
      assert a[i] in multiset(b);
      var j :| 0 <= j < |b| && b[j] == a[i];
    }
  }

  // ---- The top five ----

  lemma MoreUsedWeak()
    ensures StableSort.Weak(MoreUsed)
  {
  }

  /** The values of the merged map in some order: no two alike. */
  lemma ValuesDistinct(m: map<string, Invocation>, order: seq<string>)
    requires Enumerates(order, m.Keys) && forall k :: k in m ==> Key(m[k]) == k
    ensures Distinct(Values(m, order))
    ensures forall x :: x in Values(m, order) <==> Key(x) in m && m[Key(x)] == x
    ensures |Values(m, order)| == |m|
  {
    hide Key;
    var values := Values(m, order);
    forall i, j | 0 <= i < j < |values| ensures values[i] != values[j] {
      assert order[i] in order && order[j] in order;
      assert Key(values[i]) == order[i] && Key(values[j]) == order[j];
    }
    forall x | x in values ensures Key(x) in m && m[Key(x)] == x {
      var i :| 0 <= i < |values| && values[i] == x;
      assert order[i] in order;
    }
    forall x | Key(x) in m && m[Key(x)] == x ensures x in values {
      var i :| 0 <= i < |order| && order[i] == Key(x);
      assert values[i] in values;
    }
    EnumerationSize(order, m.Keys);
  }

  /** The ranking has the five merged invocations nothing left out is used more than, most used first, none twice. */
  lemma TopDominates(top: seq<Invocation>, invocations: seq<Invocation>)
    requires IsTop(top, Merged(invocations))
    ensures var m := Merged(invocations);
      && |top| == (if |m| > 5 then 5 else |m|)
      && (forall x :: x in top ==> Key(x) in m && m[Key(x)] == x)
      && (forall i, j :: 0 <= i < j < |top| ==> top[i].usageCount >= top[j].usageCount && top[i] != top[j])
      && forall x, y :: x in top && Key(y) in m && m[Key(y)] == y && y !in top ==> x.usageCount >= y.usageCount
  {
    hide Merged, Key, FirstFive, Values, MoreUsed;
    var m := Merged(invocations);
    var order :| Enumerates(order, m.Keys) && top == FirstFive(StableSort.Sort(Values(m, order), MoreUsed));
    var values := Values(m, order);
    forall k | k in m ensures Key(m[k]) == k {
      Stored(invocations, k);
    }
    ValuesDistinct(m, order);
    StableSort.SortPermutes(values, MoreUsed);
    PermutedDistinct(values, StableSort.Sort(values, MoreUsed));
    MoreUsedWeak();
    StableSort.SortOrders(values, MoreUsed);
    StableSort.SortMembers(values, MoreUsed);
    TopOfSorted(top, StableSort.Sort(values, MoreUsed));
  }

  lemma TopOfSorted(top: seq<Invocation>, sorted: seq<Invocation>)
    requires top == FirstFive(sorted) && StableSort.Ordered(sorted, MoreUsed) && Distinct(sorted)
    ensures |top| == if |sorted| > 5 then 5 else |sorted|
    ensures forall x :: x in top ==> x in sorted
    ensures forall i, j :: 0 <= i < j < |top| ==> top[i].usageCount >= top[j].usageCount && top[i] != top[j]
    ensures forall x, y :: x in top && y in sorted && y !in top ==> x.usageCount >= y.usageCount
  {
    assert forall k :: 0 <= k < |top| ==> sorted[k] == top[k] && top[k] in top;
    forall x, y | x in top && y in sorted && y !in top ensures x.usageCount >= y.usageCount {
      var i :| 0 <= i < |top| && top[i] == x;
      var j :| 0 <= j < |sorted| && sorted[j] == y;
      assert !MoreUsed(sorted[j], sorted[i]);
    }
    forall i, j | 0 <= i < j < |top| ensures top[i].usageCount >= top[j].usageCount {
      assert !MoreUsed(sorted[j], sorted[i]);
    }
  }

  lemma EnumerationSize(order: seq<string>, keys: set<string>)
    requires Enumerates(order, keys)
    ensures |order| == |keys|
  {
    var other := Enumeration(keys);
    EnumerationsPermute(order, other, keys);
    assert |multiset(order)| == |multiset(other)|;
  }
}
