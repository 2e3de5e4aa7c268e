/** mergedStreaks of internal/mux/combined_profile.go. */
module Streaks {
  import opened Accounts
  import opened Calendar

  ghost predicate TextSorted(dates: seq<string>) {
    forall i, j :: 0 <= i < j < |dates| ==> TextLess(dates[i], dates[j])
  }

  /** The active days, numbered: entries that do not parse are skipped. */
  function ActiveDays(dates: seq<string>): set<int> {
    set i | 0 <= i < |dates| && Parse(dates[i]).Some? :: Ordinal(Parse(dates[i]).value)
  }

  // ---- What the two streaks mean ----

  /** The `n` days from day `first` on are all active. */
  ghost predicate Stretch(days: set<int>, first: int, n: nat) {
    forall day :: first <= day < first + n ==> day in days
  }

  function ZeroOrdinal(): (o: int)
    ensures o == 366
  {
    assert LeapsBefore(1) == 1;
    Ordinal(ZERO_DAY)
  }

  /** The stretch holds both 0001-01-01, Go's zero time, and the day after it. */
  predicate StepsOverZero(first: int, n: nat) {
    first <= ZeroOrdinal() && ZeroOrdinal() + 1 < first + n
  }

  /** Some `n` consecutive active days do not step over Go's zero time. */
  ghost predicate HasUnbroken(days: set<int>, n: nat) {
    exists first :: Stretch(days, first, n) && !StepsOverZero(first, n)
  }

  /** What the forward loop computes: the longest stretch that does not step over Go's zero time. */
  ghost predicate IsLongest(days: set<int>, n: nat) {
    && HasUnbroken(days, n)
    && forall first, m: nat :: Stretch(days, first, m) && !StepsOverZero(first, m) ==> m <= n
  }

  /** What it is meant to compute. */
  ghost predicate IsTrueLongest(days: set<int>, n: nat) {
    && (exists first :: Stretch(days, first, n))
    && forall first, m: nat :: Stretch(days, first, m) ==> m <= n
  }

  /** Today, or yesterday when today is inactive. */
  function Anchor(dates: seq<string>, today: Day): Day {
    if Format(today) in dates then today else Previous(today)
  }

  /** The active days ending at the anchor are exactly `n`. */
  ghost predicate IsCurrent(dates: seq<string>, today: Day, n: nat) {
    && (forall k :: 0 <= k < n ==> Format(Back(Anchor(dates, today), k)) in dates)
    && Format(Back(Anchor(dates, today), n)) !in dates
  }

  // ---- The forward loop ----

  /** `run` is the longest unbroken stretch that ends on day `last`. */
  ghost predicate IsRun(days: set<int>, last: int, run: nat) {
    && Stretch(days, last + 1 - run, run) && !StepsOverZero(last + 1 - run, run)
    && forall first, m: nat ::
         Stretch(days, first, m) && !StepsOverZero(first, m) && first + m == last + 1 ==> m <= run
  }

  lemma StretchHas(days: set<int>, first: int, n: nat, day: int)
    requires Stretch(days, first, n) && first <= day < first + n
    ensures day in days
  {
  }

  lemma RunGrows(days: set<int>, last: int, run: nat, day: int)
    requires IsRun(days, last, run) && last in days && forall x :: x in days ==> x <= last
    requires day > last
    ensures IsRun(days + {day}, day, if day == last + 1 && last != ZeroOrdinal() then run + 1 else 1)
  {
    var grown := days + {day};
    var joined := day == last + 1 && last != ZeroOrdinal();
    var n := if joined then run + 1 else 1;
    assert Stretch(days, last, 1);
    forall x | day + 1 - n <= x < day + 1 ensures x in grown {
      if x != day {
        StretchHas(days, last + 1 - run, run, x);
      }
    }
    forall first, m: nat | Stretch(grown, first, m) && !StepsOverZero(first, m) && first + m == day + 1 ensures m <= n {
      if m > 1 {
        StretchHas(grown, first, m, day - 1);
        forall x | first <= x < first + (m - 1) ensures x in days {
          StretchHas(grown, first, m, x);
        }
        assert Stretch(days, first, m - 1);
      }
    }
  }

  lemma FirstRun(day: int)
    ensures IsRun({day}, day, 1)
  {
    forall first, m: nat | Stretch({day}, first, m) && first + m == day + 1 ensures m <= 1 {
      if m > 1 {
        StretchHas({day}, first, m, day - 1);
      }
    }
  }

  lemma LongestGrows(days: set<int>, longest: nat, day: int, run: nat)
    requires IsLongest(days, longest) && forall x :: x in days ==> x < day
    requires IsRun(days + {day}, day, run)
    ensures IsLongest(days + {day}, if run > longest then run else longest)
  {
    var grown := days + {day};
    var n := if run > longest then run else longest;
    forall first, m: nat | Stretch(grown, first, m) && !StepsOverZero(first, m) ensures m <= n {
      if first <= day < first + m {
        if first + m > day + 1 {
          StretchHas(grown, first, m, day + 1);
        }
      } else {
        assert Stretch(days, first, m);
      }
    }
    if run > longest {
      assert Stretch(grown, day + 1 - run, run);
    } else {
      var first :| Stretch(days, first, longest) && !StepsOverZero(first, longest);
      assert Stretch(grown, first, longest);
    }
  }

  lemma NoDays()
    ensures IsLongest({}, 0)
  {
    assert Stretch({}, 0, 0);
    forall first, m: nat | Stretch({}, first, m) ensures m <= 0 {
      if m > 0 {
        StretchHas({}, first, m, first);
      }
    }
  }

  lemma ActiveDaysSnoc(dates: seq<string>, i: nat)
    requires i < |dates|
    ensures ActiveDays(dates[..i + 1]) ==
            ActiveDays(dates[..i]) + (if Parse(dates[i]).Some? then {Ordinal(Parse(dates[i]).value)} else {})
  {
    hide Parse, Ordinal;
    var before, after := dates[..i], dates[..i + 1];
    forall day ensures day in ActiveDays(after) <==>
                       day in ActiveDays(before) || (Parse(dates[i]).Some? && day == Ordinal(Parse(dates[i]).value)) {
      if day in ActiveDays(before) {
        var k :| 0 <= k < |before| && Parse(before[k]).Some? && day == Ordinal(Parse(before[k]).value);
        assert after[k] == before[k];
      }
      if day in ActiveDays(after) {
        var k :| 0 <= k < |after| && Parse(after[k]).Some? && day == Ordinal(Parse(after[k]).value);
        if k < i {
          assert before[k] == after[k];
        }
      }
      assert after[i] == dates[i];
    }
  }

  /** Sorted texts visit the days in order. */
  lemma ParsedInOrder(dates: seq<string>, i: nat)
    requires TextSorted(dates) && i < |dates| && Parse(dates[i]).Some?
    ensures forall day :: day in ActiveDays(dates[..i]) ==> day < Ordinal(Parse(dates[i]).value)
  {
    hide Parse, Ordinal, Format, TextLess;
    forall day | day in ActiveDays(dates[..i]) ensures day < Ordinal(Parse(dates[i]).value) {
      var k :| 0 <= k < i && Parse(dates[k]).Some? && day == Ordinal(Parse(dates[k]).value);
      FormatOfParse(dates[k]);
      FormatOfParse(dates[i]);
      TextOrderIsDayOrder(Parse(dates[k]).value, Parse(dates[i]).value);
    }
  }

  method LongestStreak(dates: seq<string>) returns (longest: nat)
    requires TextSorted(dates)
    ensures IsLongest(ActiveDays(dates), longest)
  {
    hide Parse, Ordinal, ActiveDays, TextSorted, IsRun, IsLongest;
    longest := 0;
    var run := 0;
    var previous := ZERO_DAY;
    NoDays();
    assert ActiveDays(dates[..0]) == {} by { NothingActive(dates); }
    for i := 0 to |dates|
      invariant IsLongest(ActiveDays(dates[..i]), longest)
      invariant ActiveDays(dates[..i]) == {} ==> previous == ZERO_DAY
      invariant ActiveDays(dates[..i]) != {} ==>
        && IsRun(ActiveDays(dates[..i]), Ordinal(previous), run) && Ordinal(previous) in ActiveDays(dates[..i])
        && forall day :: day in ActiveDays(dates[..i]) ==> day <= Ordinal(previous)
    {
      ghost var days := ActiveDays(dates[..i]);
      ActiveDaysSnoc(dates, i);
      var date := Parse(dates[i]);
      if date.None? {
        assert days + {} == days;
        continue;
      }
      ParsedInOrder(dates, i);
      assert previous == ZERO_DAY <==> Ordinal(previous) == ZeroOrdinal() by {
        OrdinalOrders(previous, ZERO_DAY);
      }
      if days == {} {
        FirstRun(Ordinal(date.value));
        assert days + {Ordinal(date.value)} == {Ordinal(date.value)};
      } else {
        RunGrows(days, Ordinal(previous), run, Ordinal(date.value));
      }
      if previous != ZERO_DAY && Ordinal(date.value) - Ordinal(previous) == 1 {
        run := run + 1;
      } else {
        run := 1;
      }
      LongestGrows(days, longest, Ordinal(date.value), run);
      if run > longest {
        longest := run;
      }
      previous := date.value;
    }
    assert dates[..|dates|] == dates;
  }

  lemma NothingActive(dates: seq<string>)
    ensures ActiveDays(dates[..0]) == {}
  {
  }

  // ---- The backward loop ----

  lemma {:induction false} BackStep(d: Day, n: nat)
    ensures Back(d, n + 1) == Previous(Back(d, n))
    decreases n
  {
    if n > 0 {
      BackStep(Previous(d), n - 1);
    }
  }

  /** Walking back never meets the same text twice. */
  lemma BackDistinct(d: Day, j: nat, k: nat)
    requires j < k
    ensures Format(Back(d, j)) != Format(Back(d, k))
  {
    hide Format, Back, Ordinal;
    OrdinalOfBack(d, j);
    OrdinalOfBack(d, k);
    if Format(Back(d, j)) == Format(Back(d, k)) {
      FormatInjective(Back(d, j), Back(d, k));
    }
  }

  method CurrentStreak(dates: seq<string>, today: Day) returns (current: nat)
    ensures IsCurrent(dates, today, current)
  {
    hide Format, Back;
    var active: set<string> := {};
    for i := 0 to |dates|
      invariant forall s :: s in active <==> s in dates[..i]
    {
      active := active + {dates[i]};
    }
    assert dates[..|dates|] == dates;
    var anchor := today;
    if Format(anchor) !in active {
      anchor := Previous(anchor);
    }
    ghost var start := anchor;
    ghost var rest := active;
    current := 0;
    assert Back(start, 0) == start by { BackNone(start); }
    while Format(anchor) in active
      invariant anchor == Back(start, current)
      invariant forall k :: 0 <= k < current ==> Format(Back(start, k)) in active
      invariant rest <= active
      invariant forall s :: s in active && s !in rest ==> exists k :: 0 <= k < current && s == Format(Back(start, k))
      decreases |rest|
    {
      forall k | 0 <= k < current ensures Format(Back(start, k)) != Format(anchor) {
        BackDistinct(start, k, current);
      }
      BackStep(start, current);
      rest := rest - {Format(anchor)};
      current := current + 1;
      anchor := Previous(anchor);
    }
  }

  lemma BackNone(d: Day)
    ensures Back(d, 0) == d
  {
  }

  method MergedStreaks(dates: seq<string>, today: Day) returns (current: nat, longest: nat)
    requires TextSorted(dates)
    ensures IsCurrent(dates, today, current) && IsLongest(ActiveDays(dates), longest)
  {
    longest := LongestStreak(dates);
    current := CurrentStreak(dates, today);
  }

  // ---- Results ----

  lemma StreaksUnique(dates: seq<string>, today: Day, current: nat, other: nat, longest: nat, further: nat)
    requires IsCurrent(dates, today, current) && IsCurrent(dates, today, other)
    requires IsLongest(ActiveDays(dates), longest) && IsLongest(ActiveDays(dates), further)
    ensures current == other && longest == further
  {
    hide Format, Back, Parse, ActiveDays;
    assert !(current < other) && !(other < current);
  }

  /** `back` active days end on 0001-01-01 and `ahead` begin on the day after. */
  ghost predicate AroundZero(days: set<int>, back: nat, ahead: nat) {
    && Stretch(days, ZeroOrdinal() + 1 - back, back) && ZeroOrdinal() - back !in days
    && Stretch(days, ZeroOrdinal() + 1, ahead) && ZeroOrdinal() + 1 + ahead !in days
  }

  /** A stretch over the zero time lies within the run around it. */
  lemma StretchAroundZero(days: set<int>, back: nat, ahead: nat, first: int, n: nat)
    requires AroundZero(days, back, ahead) && Stretch(days, first, n) && StepsOverZero(first, n)
    ensures n <= back + ahead && back > 0 && ahead > 0
  {
    var z := ZeroOrdinal();
    if first < z + 1 - back {
      StretchHas(days, first, n, z - back);
    }
    if first + n > z + 1 + ahead {
      StretchHas(days, first, n, z + 1 + ahead);
    }
    StretchHas(days, first, n, z);
    StretchHas(days, first, n, z + 1);
  }

  /** A shorter stretch than an unbroken one is there too. */
  lemma UnbrokenIff(days: set<int>, longest: nat, n: nat)
    requires IsLongest(days, longest)
    ensures n <= longest <==> HasUnbroken(days, n)
  {
    if n <= longest {
      var first :| Stretch(days, first, longest) && !StepsOverZero(first, longest);
      assert Stretch(days, first, n) && !StepsOverZero(first, n);
    }
  }

  /** The reported longest streak is the true one exactly when one of 0001-01-01 and 0001-01-02 is inactive, or as many
      days as the run around them holds are active in a row somewhere without stepping over 0001-01-01. */
  lemma LongestIsTrueIff(days: set<int>, longest: nat, back: nat, ahead: nat)
    requires IsLongest(days, longest) && AroundZero(days, back, ahead)
    ensures IsTrueLongest(days, longest) <==> back == 0 || ahead == 0 || HasUnbroken(days, back + ahead)
    ensures back == 0 <==> ZeroOrdinal() !in days
    ensures ahead == 0 <==> ZeroOrdinal() + 1 !in days
  {
    var z := ZeroOrdinal();
    UnbrokenIff(days, longest, back + ahead);
    assert Stretch(days, z + 1 - back, back + ahead) by {
      forall day | z + 1 - back <= day < z + 1 + ahead ensures day in days {
        if day <= z {
          assert day < z + 1 - back + back;
        }
      }
    }
    if back == 0 || ahead == 0 || back + ahead <= longest {
      forall first, m: nat | Stretch(days, first, m) ensures m <= longest {
        if StepsOverZero(first, m) {
          StretchAroundZero(days, back, ahead, first, m);
        }
      }
    }
    assert back > 0 ==> z in days by {
      if back > 0 {
        assert z + 1 - back <= z < z + 1 - back + back;
      }
    }
    assert ahead > 0 ==> z + 1 in days;
  }

  /** The runs around the zero time always exist. */
  lemma {:induction false} AroundZeroExists(days: set<int>) returns (back: nat, ahead: nat)
    ensures AroundZero(days, back, ahead)
  {
    back, ahead := 0, 0;
    var rest := days;
    while ZeroOrdinal() - back in days
      invariant Stretch(days, ZeroOrdinal() + 1 - back, back)
      invariant rest <= days && forall x :: x in days && x <= ZeroOrdinal() - back ==> x in rest
      decreases |rest|
    {
      rest := rest - {ZeroOrdinal() - back};
      back := back + 1;
    }
    rest := days;
    while ZeroOrdinal() + 1 + ahead in days
      invariant Stretch(days, ZeroOrdinal() + 1, ahead)
      invariant rest <= days && forall x :: x in days && x >= ZeroOrdinal() + 1 + ahead ==> x in rest
      decreases |rest|
    {
      rest := rest - {ZeroOrdinal() + 1 + ahead};
      ahead := ahead + 1;
    }
  }

  /** The day before year 0; nothing before it is ever reached without passing it. */
  const BEFORE_YEAR_ZERO: Day := Date(-1, 12, 31)

  lemma {:induction false} StaysInFourDigitYears(start: Day, n: nat, k: nat)
    requires FourDigitYear(start) && k <= n
    requires forall j :: 0 <= j <= n ==> Back(start, j) != BEFORE_YEAR_ZERO
    ensures FourDigitYear(Back(start, k))
    decreases k
  {
    if k > 0 {
      StaysInFourDigitYears(start, n, k - 1);
      BackStep(start, k - 1);
      assert Back(start, k) != BEFORE_YEAR_ZERO;
    }
  }

  /** The current streak is a stretch of active days. */
  lemma CurrentIsStretch(dates: seq<string>, today: Day, current: nat)
    requires IsCurrent(dates, today, current)
    requires FourDigitYear(today) && Format(BEFORE_YEAR_ZERO) !in dates
    ensures Stretch(ActiveDays(dates), Ordinal(Anchor(dates, today)) + 1 - current, current)
  {
    hide Format, Parse, Ordinal, Back;
    var start := Anchor(dates, today);
    var first := Ordinal(start) + 1 - current;
    forall day | first <= day < first + current ensures day in ActiveDays(dates) {
      var k := Ordinal(start) - day;
      assert Format(Back(start, k)) in dates;
      assert FourDigitYear(start) by {
        BackNone(start);
        assert Format(Back(start, 0)) in dates;
        assert start != BEFORE_YEAR_ZERO;
      }
      StaysInFourDigitYears(start, k, k) by {
        forall j | 0 <= j <= k ensures Back(start, j) != BEFORE_YEAR_ZERO {
          assert Format(Back(start, j)) in dates;
        }
      }
      ParseOfFormat(Back(start, k));
      OrdinalOfBack(start, k);
      var i :| 0 <= i < |dates| && dates[i] == Format(Back(start, k));
    }
  }

  /** The day before the current streak is inactive. */
  lemma CurrentEnds(dates: seq<string>, today: Day, current: nat)
    requires IsCurrent(dates, today, current)
    ensures Ordinal(Anchor(dates, today)) - current !in ActiveDays(dates)
  {
    hide Format, Parse, Ordinal, Back;
    var before := Back(Anchor(dates, today), current);
    OrdinalOfBack(Anchor(dates, today), current);
    forall i | 0 <= i < |dates| && Parse(dates[i]).Some? ensures Ordinal(Parse(dates[i]).value) != Ordinal(before) {
      FormatOfParse(dates[i]);
      OrdinalOrders(Parse(dates[i]).value, before);
    }
  }

  /** A day of a four-digit year is active exactly when its text is listed. */
  lemma ActiveIff(dates: seq<string>, d: Day)
    requires FourDigitYear(d)
    ensures Ordinal(d) in ActiveDays(dates) <==> Format(d) in dates
  {
    hide Format, Parse, Ordinal;
    if Format(d) in dates {
      var i :| 0 <= i < |dates| && dates[i] == Format(d);
      ParseOfFormat(d);
    }
    if Ordinal(d) in ActiveDays(dates) {
      var i :| 0 <= i < |dates| && Parse(dates[i]).Some? && Ordinal(d) == Ordinal(Parse(dates[i]).value);
      FormatOfParse(dates[i]);
      OrdinalOrders(d, Parse(dates[i]).value);
    }
  }

  /** The current streak in day numbers: the active days that end today, or yesterday while today is inactive. */
  lemma CurrentCounts(dates: seq<string>, today: Day, current: nat)
    requires IsCurrent(dates, today, current)
    requires FourDigitYear(today) && Format(BEFORE_YEAR_ZERO) !in dates
    ensures var days := ActiveDays(dates);
      var last := if Ordinal(today) in days then Ordinal(today) else Ordinal(today) - 1;
      && (forall day :: last - current < day <= last ==> day in days)
      && last - current !in days
  {
    hide Format, Parse, Ordinal, Back, ActiveDays, IsCurrent;
    ActiveIff(dates, today);
    OrdinalOfPrevious(today);
    CurrentIsStretch(dates, today, current);
    CurrentEnds(dates, today, current);
  }

  /** A maximal run of active days up to `last` that steps over the zero time starts where the run around it does. */
  lemma RunOverZero(days: set<int>, last: int, n: nat, back: nat, ahead: nat)
    requires Stretch(days, last + 1 - n, n) && last - n !in days && AroundZero(days, back, ahead)
    ensures StepsOverZero(last + 1 - n, n) <==> back > 0 && 0 < last - ZeroOrdinal() <= ahead
    ensures StepsOverZero(last + 1 - n, n) ==> n == back + (last - ZeroOrdinal())
  {
    var z := ZeroOrdinal();
    if StepsOverZero(last + 1 - n, n) {
      StretchAroundZero(days, back, ahead, last + 1 - n, n);
      if last > z + ahead {
        StretchHas(days, last + 1 - n, n, z + 1 + ahead);
      }
      if last + 1 - n < z + 1 - back {
        StretchHas(days, last + 1 - n, n, z - back);
      }
      if last - n >= z + 1 - back {
        StretchHas(days, z + 1 - back, back, last - n);
      }
    } else if back > 0 && 0 < last - z <= ahead {
      if last - n >= z + 1 {
        StretchHas(days, z + 1, ahead, last - n);
      } else {
        StretchHas(days, z + 1 - back, back, z);
      }
    }
  }

  /** The current streak is at most the reported longest one exactly when the run of days around 0001-01-01 does not
      reach the anchor over that day, or as many days as it then holds are active in a row somewhere without it.
      `past` is how far the anchor lies behind 0001-01-01. */
  lemma CurrentAtMostLongestIff(dates: seq<string>, today: Day, current: nat, longest: nat, back: nat, ahead: nat)
    requires IsCurrent(dates, today, current) && IsLongest(ActiveDays(dates), longest)
    requires FourDigitYear(today) && Format(BEFORE_YEAR_ZERO) !in dates
    requires AroundZero(ActiveDays(dates), back, ahead)
    ensures var past := Ordinal(Anchor(dates, today)) - ZeroOrdinal();
      current <= longest <==> back == 0 || past <= 0 || ahead < past || HasUnbroken(ActiveDays(dates), back + past)
  {
    hide Format, Parse, Ordinal, Back, ActiveDays, IsCurrent, IsLongest, AroundZero, Stretch, StepsOverZero, Anchor;
    var days, last := ActiveDays(dates), Ordinal(Anchor(dates, today));
    CurrentIsStretch(dates, today, current);
    CurrentEnds(dates, today, current);
    RunOverZero(days, last, current, back, ahead);
    UnbrokenIff(days, longest, current);
  }

  /** The current streak never exceeds the true longest one, so not the reported one either
      unless 0001-01-01 and 0001-01-02 are both active. */
  lemma CurrentAtMostLongest(dates: seq<string>, today: Day, current: nat, longest: nat)
    requires IsCurrent(dates, today, current) && IsLongest(ActiveDays(dates), longest)
    requires FourDigitYear(today) && Format(BEFORE_YEAR_ZERO) !in dates
    ensures forall best: nat :: IsTrueLongest(ActiveDays(dates), best) ==> current <= best
    ensures ZeroOrdinal() !in ActiveDays(dates) || ZeroOrdinal() + 1 !in ActiveDays(dates) ==> current <= longest
  {
    hide Format, Parse, Ordinal, Back, ActiveDays;
    CurrentIsStretch(dates, today, current);
    var back, ahead := AroundZeroExists(ActiveDays(dates));
    LongestIsTrueIff(ActiveDays(dates), longest, back, ahead);
  }

  lemma ZeroDayTexts()
    ensures Format(ZERO_DAY) == "0001-01-01" && Format(Date(1, 1, 2)) == "0001-01-02"
  {
  }

  lemma TwoDayStreaks(z: int)
    requires z == ZeroOrdinal()
    ensures IsLongest({z, z + 1}, 1) && IsTrueLongest({z, z + 1}, 2)
  {
    var days := {z, z + 1};
    assert Stretch(days, z, 1) && Stretch(days, z, 2);
    forall first, m: nat | Stretch(days, first, m) ensures m <= 2 && (!StepsOverZero(first, m) ==> m <= 1) {
      if m > 0 {
        StretchHas(days, first, m, first);
        StretchHas(days, first, m, first + m - 1);
      }
    }
  }

  /** Two active days, the first of them Go's zero time: a current streak of 2 and a longest one of 1. */
  lemma ZeroDayBreaksRun()
    ensures var dates, today := ["0001-01-01", "0001-01-02"], Date(1, 1, 2);
      && TextSorted(dates) && IsCurrent(dates, today, 2) && IsLongest(ActiveDays(dates), 1)
      && IsTrueLongest(ActiveDays(dates), 2)
  {
    hide Format, Parse, Ordinal, TextLess, TextSorted, IsCurrent, IsLongest, IsTrueLongest;
    ZeroDayTexts();
    ZeroDaysActive(Date(1, 1, 2));
    ZeroDaysCurrent(Date(1, 1, 2));
    TwoDayStreaks(ZeroOrdinal());
  }

  lemma ZeroDaysActive(second: Day)
    requires second == Date(1, 1, 2)
    ensures TextSorted([Format(ZERO_DAY), Format(second)])
    ensures ActiveDays([Format(ZERO_DAY), Format(second)]) == {ZeroOrdinal(), ZeroOrdinal() + 1}
  {
    hide Format, Parse, Ordinal, TextLess;
    ParseOfFormat(ZERO_DAY);
    ParseOfFormat(second);
    OrdinalOfPrevious(second);
    assert Previous(second) == ZERO_DAY;
    assert Ordinal(ZERO_DAY) == ZeroOrdinal();
    TextOrderIsDayOrder(ZERO_DAY, second);
    var dates := [Format(ZERO_DAY), Format(second)];
    assert Parse(dates[0]) == Some(ZERO_DAY) && Parse(dates[1]) == Some(second);
  }

  lemma ZeroDaysCurrent(second: Day)
    requires second == Date(1, 1, 2)
    ensures IsCurrent([Format(ZERO_DAY), Format(second)], second, 2)
  {
    hide Format;
    assert Back(second, 0) == second && Back(second, 1) == ZERO_DAY && Back(second, 2) == Date(0, 12, 31);
    BackDistinct(second, 1, 2);
    BackDistinct(second, 0, 2);
  }
}
