/** Calendar days (the proleptic Gregorian calendar of Go's time package) and their text in the layout "2006-01-02". */
module Calendar {
  import opened Accounts
  import Text

  datatype Date = Date(year: int, month: int, day: int)

  predicate Leap(year: int) {
    year % 4 == 0 && (year % 100 != 0 || year % 400 == 0)
  }

  function DaysIn(year: int, month: int): int {
    if month == 2 then (if Leap(year) then 29 else 28)
    else if month == 4 || month == 6 || month == 9 || month == 11 then 30
    else 31
  }

  predicate Valid(d: Date) {
    1 <= d.month <= 12 && 1 <= d.day <= DaysIn(d.year, d.month)
  }

  type Day = d: Date | Valid(d) witness Date(1, 1, 1)

  /** Go's zero time. */
  const ZERO_DAY: Day := Date(1, 1, 1)

  /** AddDate(0, 0, -1). */
  function Previous(d: Day): Day {
    if d.day > 1 then Date(d.year, d.month, d.day - 1)
    else if d.month > 1 then Date(d.year, d.month - 1, DaysIn(d.year, d.month - 1))
    else Date(d.year - 1, 12, 31)
  }

  /** AddDate(0, 0, -n). */
  function Back(d: Day, n: nat): Day
    decreases n
  {
    if n == 0 then d else Back(Previous(d), n - 1)
  }

  // ---- Counting days ----

  /** Leap years from year 0 up to but excluding `year`. */
  function LeapsBefore(year: int): int {
    (year + 3) / 4 - (year + 99) / 100 + (year + 399) / 400
  }

  function YearStart(year: int): int {
    365 * year + LeapsBefore(year)
  }

  function MonthStart(year: int, month: int): int
    requires 1 <= month <= 13
    decreases month
  {
    if month == 1 then 0 else MonthStart(year, month - 1) + DaysIn(year, month - 1)
  }

  /** Days since 0000-01-01. */
  function Ordinal(d: Day): int {
    YearStart(d.year) + MonthStart(d.year, d.month) + d.day - 1
  }

  lemma FourthYears(year: int)
    ensures (year + 4) / 4 - (year + 3) / 4 == if year % 4 == 0 then 1 else 0
  {
  }

  lemma HundredthYears(year: int)
    ensures (year + 100) / 100 - (year + 99) / 100 == if year % 100 == 0 then 1 else 0
  {
  }

  lemma FourHundredthYears(year: int)
    ensures (year + 400) / 400 - (year + 399) / 400 == if year % 400 == 0 then 1 else 0
  {
  }

  lemma CenturiesAreFourth(year: int)
    ensures year % 400 == 0 ==> year % 100 == 0
    ensures year % 100 == 0 ==> year % 4 == 0
  {
    if year % 100 == 0 {
      assert year == 4 * (25 * (year / 100));
    }
    if year % 400 == 0 {
      assert year == 100 * (4 * (year / 400));
    }
  }

  lemma YearLength(year: int)
    ensures YearStart(year + 1) == YearStart(year) + (if Leap(year) then 366 else 365)
  {
    var next := year + 1;
    assert next + 3 == year + 4 && next + 99 == year + 100 && next + 399 == year + 400;
    assert LeapsBefore(next) == (year + 4) / 4 - (year + 100) / 100 + (year + 400) / 400;
    FourthYears(year);
    HundredthYears(year);
    FourHundredthYears(year);
    CenturiesAreFourth(year);
  }

  lemma MonthsFillYear(year: int)
    ensures MonthStart(year, 13) == if Leap(year) then 366 else 365
    ensures MonthStart(year, 12) + 31 == MonthStart(year, 13)
  {
    assert MonthStart(year, 4) == 31 + DaysIn(year, 2) + 31;
    assert MonthStart(year, 7) == MonthStart(year, 4) + 30 + 31 + 30;
    assert MonthStart(year, 10) == MonthStart(year, 7) + 31 + 31 + 30;
  }

  /** Ordinal counts days: the day before is one less. */
  lemma OrdinalOfPrevious(d: Day)
    ensures Ordinal(Previous(d)) == Ordinal(d) - 1
  {
    if d.day == 1 && d.month == 1 {
      hide LeapsBefore, YearStart;
      YearLength(d.year - 1);
      MonthsFillYear(d.year - 1);
    }
  }

  lemma {:induction false} OrdinalOfBack(d: Day, n: nat)
    ensures Ordinal(Back(d, n)) == Ordinal(d) - n
    decreases n
  {
    if n > 0 {
      OrdinalOfPrevious(d);
      OrdinalOfBack(Previous(d), n - 1);
    }
  }

  lemma {:induction false} YearsOrdered(early: int, late: int)
    requires early < late
    ensures YearStart(early + 1) <= YearStart(late)
    decreases late - early
  {
    if early + 1 < late {
      hide LeapsBefore, YearStart;
      YearsOrdered(early, late - 1);
      YearLength(late - 1);
    }
  }

  lemma {:induction false} MonthsOrdered(year: int, early: int, late: int)
    requires 1 <= early < late <= 13
    ensures MonthStart(year, early) + DaysIn(year, early) <= MonthStart(year, late)
    decreases late
  {
    if early + 1 < late {
      MonthsOrdered(year, early, late - 1);
    }
  }

  lemma OrdinalInYear(d: Day)
    ensures YearStart(d.year) <= Ordinal(d) < YearStart(d.year + 1)
  {
    hide LeapsBefore, YearStart;
    YearLength(d.year);
    MonthsFillYear(d.year);
    MonthsOrdered(d.year, d.month, 13);
    if d.month > 1 {
      MonthsOrdered(d.year, 1, d.month);
    }
  }

  predicate Before(a: Date, b: Date) {
    a.year < b.year || (a.year == b.year && (a.month < b.month || (a.month == b.month && a.day < b.day)))
  }

  lemma OrdinalIncreases(a: Day, b: Day)
    requires Before(a, b)
    ensures Ordinal(a) < Ordinal(b)
  {
    hide LeapsBefore, YearStart;
    if a.year < b.year {
      OrdinalInYear(a);
      OrdinalInYear(b);
      YearsOrdered(a.year, b.year);
    } else if a.month < b.month {
      MonthsOrdered(a.year, a.month, b.month);
    }
  }

  /** Days are in calendar order exactly when their ordinals are. */
  lemma OrdinalOrders(a: Day, b: Day)
    ensures Before(a, b) <==> Ordinal(a) < Ordinal(b)
    ensures a == b <==> Ordinal(a) == Ordinal(b)
  {
    hide Ordinal;
    if Before(a, b) {
      OrdinalIncreases(a, b);
    } else if Before(b, a) {
      OrdinalIncreases(b, a);
    }
  }

  // ---- Text ----

  function Two(n: nat): (s: string)
    requires n < 100
    ensures |s| == 2
  {
    [Text.Digit(n / 10), Text.Digit(n % 10)]
  }

  /** At least four digits, after a minus sign for a year before year 0. */
  function YearText(year: int): string {
    if 0 <= year <= 9999 then Two(year / 100) + Two(year % 100)
    else if 0 < -year <= 9999 then "-" + Two(-year / 100) + Two(-year % 100)
    else if year > 0 then Text.Decimal(year)
    else "-" + Text.Decimal(-year)
  }

  /** Format("2006-01-02"). */
  function Format(d: Day): string {
    YearText(d.year) + "-" + Two(d.month) + "-" + Two(d.day)
  }

  predicate IsDigit(c: char) {
    '0' <= c <= '9'
  }

  predicate TwoDigits(s: string) {
    |s| == 2 && IsDigit(s[0]) && IsDigit(s[1])
  }

  function TwoValue(s: string): (n: nat)
    requires TwoDigits(s)
    ensures n < 100 && Two(n) == s
  {
    (s[0] - '0') as int * 10 + (s[1] - '0') as int
  }

  lemma TwoValueOfTwo(n: nat)
    requires n < 100
    ensures TwoDigits(Two(n)) && TwoValue(Two(n)) == n
  {
  }

  /** time.Parse("2006-01-02", s). */
  function Parse(s: string): (r: Option<Day>) {
    if |s| == 10 && s[4] == '-' && s[7] == '-' &&
       TwoDigits(s[..2]) && TwoDigits(s[2..4]) && TwoDigits(s[5..7]) && TwoDigits(s[8..])
    then
      var d := Date(TwoValue(s[..2]) * 100 + TwoValue(s[2..4]), TwoValue(s[5..7]), TwoValue(s[8..]));
      if Valid(d) then Some(d) else None
    else None
  }

  predicate FourDigitYear(d: Date) {
    0 <= d.year <= 9999
  }

  /** Every day of a four-digit year survives formatting and parsing. */
  lemma ParseOfFormat(d: Day)
    requires FourDigitYear(d)
    ensures Parse(Format(d)) == Some(d)
  {
    var s := Format(d);
    assert s[..2] == Two(d.year / 100) && s[2..4] == Two(d.year % 100) && s[5..7] == Two(d.month) && s[8..] == Two(d.day);
    TwoValueOfTwo(d.year / 100);
    TwoValueOfTwo(d.year % 100);
    TwoValueOfTwo(d.month);
    TwoValueOfTwo(d.day);
  }

  /** Whatever parses is the text of a day in a four-digit year. */
  lemma FormatOfParse(s: string)
    requires Parse(s).Some?
    ensures FourDigitYear(Parse(s).value) && Format(Parse(s).value) == s
  {
    var d := Parse(s).value;
    assert d.year / 100 == TwoValue(s[..2]) && d.year % 100 == TwoValue(s[2..4]);
    assert s == s[..2] + s[2..4] + "-" + s[5..7] + "-" + s[8..];
  }

  lemma FourInjective(m: nat, n: nat)
    requires m <= 9999 && n <= 9999
    requires Two(m / 100) + Two(m % 100) == Two(n / 100) + Two(n % 100)
    ensures m == n
  {
    TwoValueOfTwo(m / 100);
    TwoValueOfTwo(m % 100);
    TwoValueOfTwo(n / 100);
    TwoValueOfTwo(n % 100);
    hide Two, TwoValue;
    var s := Two(m / 100) + Two(m % 100);
    assert s[..2] == Two(m / 100) == Two(n / 100) && s[2..] == Two(m % 100) == Two(n % 100);
  }

  lemma YearTextInjective(a: int, b: int)
    requires YearText(a) == YearText(b)
    ensures a == b
  {
    hide Text.Decimal, Two;
    YearTextStart(a);
    YearTextStart(b);
    if 0 <= a <= 9999 {
      FourInjective(a, b);
    } else if 0 < -a <= 9999 {
      assert YearText(a)[1..] == Two(-a / 100) + Two(-a % 100) && YearText(b)[1..] == Two(-b / 100) + Two(-b % 100);
      FourInjective(-a, -b);
    } else if a > 0 {
      Text.DecimalInjective(a, b);
    } else {
      assert YearText(a)[1..] == Text.Decimal(-a) && YearText(b)[1..] == Text.Decimal(-b);
      Text.DecimalInjective(-a, -b);
    }
  }

  lemma YearTextStart(year: int)
    ensures YearText(year) != [] && (YearText(year)[0] == '-' <==> year < 0)
    ensures |YearText(year)| - (if year < 0 then 1 else 0) > 4 <==> year > 9999 || -year > 9999
  {
    if year > 9999 {
      DecimalLong(year);
    } else if -year > 9999 {
      DecimalLong(-year);
    }
  }

  lemma DecimalLong(n: nat)
    requires n > 9999
    ensures |Text.Decimal(n)| > 4
  {
    assert |Text.Decimal(n / 10 / 10 / 10 / 10)| >= 1;
    assert n / 10 / 10 / 10 >= 10;
    assert |Text.Decimal(n / 10 / 10 / 10)| >= 2;
    assert |Text.Decimal(n / 10 / 10)| >= 3;
    assert |Text.Decimal(n / 10)| >= 4;
  }

  /** Different days have different texts, whatever their years. */
  lemma FormatInjective(a: Day, b: Day)
    requires Format(a) == Format(b)
    ensures a == b
  {
    hide YearText, Two;
    var s := Format(a);
    var n := |s| - 6;
    assert s[..n] == YearText(a.year) == YearText(b.year);
    assert s[n + 1..n + 3] == Two(a.month) == Two(b.month);
    assert s[n + 4..] == Two(a.day) == Two(b.day);
    YearTextInjective(a.year, b.year);
    TwoValueOfTwo(a.month);
    TwoValueOfTwo(b.month);
    TwoValueOfTwo(a.day);
    TwoValueOfTwo(b.day);
  }

  // ---- Text order ----

  /** Go's order on strings. */
  predicate TextLess(a: string, b: string) {
    if b == [] then false
    else if a == [] then true
    else a[0] < b[0] || (a[0] == b[0] && TextLess(a[1..], b[1..]))
  }

  lemma {:induction false} TextLessConcat(a: string, b: string, c: string, d: string)
    requires |a| == |b|
    ensures TextLess(a + c, b + d) <==> TextLess(a, b) || (a == b && TextLess(c, d))
  {
    if a == [] {
      assert a + c == c && b + d == d;
    } else {
      TextLessConcat(a[1..], b[1..], c, d);
      assert (a + c)[1..] == a[1..] + c && (b + d)[1..] == b[1..] + d;
      assert a == [a[0]] + a[1..] && b == [b[0]] + b[1..];
    }
  }

  lemma {:induction false} TextLessTrichotomy(a: string, b: string)
    ensures TextLess(a, b) <==> !TextLess(b, a) && a != b
  {
    if a != [] && b != [] {
      TextLessTrichotomy(a[1..], b[1..]);
      assert a == [a[0]] + a[1..] && b == [b[0]] + b[1..];
    }
  }

  lemma {:induction false} TextLessTransitive(a: string, b: string, c: string)
    requires TextLess(a, b) && TextLess(b, c)
    ensures TextLess(a, c)
  {
    if a != [] && a[0] == b[0] == c[0] {
      TextLessTransitive(a[1..], b[1..], c[1..]);
    }
  }

  lemma TwoOrders(m: nat, n: nat)
    requires m < 100 && n < 100
    ensures TextLess(Two(m), Two(n)) <==> m < n
    ensures Two(m) == Two(n) <==> m == n
  {
    TwoValueOfTwo(m);
    TwoValueOfTwo(n);
    TextLessConcat([Text.Digit(m / 10)], [Text.Digit(n / 10)], [Text.Digit(m % 10)], [Text.Digit(n % 10)]);
    assert Two(m) == [Text.Digit(m / 10)] + [Text.Digit(m % 10)];
    assert Two(n) == [Text.Digit(n / 10)] + [Text.Digit(n % 10)];
  }

  lemma YearTextOrders(a: int, b: int)
    requires 0 <= a <= 9999 && 0 <= b <= 9999
    ensures TextLess(YearText(a), YearText(b)) <==> a < b
    ensures YearText(a) == YearText(b) <==> a == b
  {
    hide Two;
    TwoOrders(a / 100, b / 100);
    TwoOrders(a % 100, b % 100);
    TextLessConcat(Two(a / 100), Two(b / 100), Two(a % 100), Two(b % 100));
    if YearText(a) == YearText(b) {
      YearTextInjective(a, b);
    }
  }

  /** In four-digit years the order of the texts is the order of the days. */
  lemma TextOrderIsDayOrder(a: Day, b: Day)
    requires FourDigitYear(a) && FourDigitYear(b)
    ensures TextLess(Format(a), Format(b)) <==> Ordinal(a) < Ordinal(b)
  {
    hide Two, YearText, Ordinal, TextLess;
    OrdinalOrders(a, b);
    YearTextOrders(a.year, b.year);
    TwoOrders(a.month, b.month);
    TwoOrders(a.day, b.day);
    var c, d := "-" + Two(a.month) + "-" + Two(a.day), "-" + Two(b.month) + "-" + Two(b.day);
    assert |YearText(a.year)| == |YearText(b.year)| == 4 by { FourWide(a.year); FourWide(b.year); }
    assert Format(a) == YearText(a.year) + c && Format(b) == YearText(b.year) + d;
    TextLessConcat(YearText(a.year), YearText(b.year), c, d);
    MonthDayOrder(a.month, a.day, b.month, b.day);
  }

  lemma FourWide(year: int)
    requires 0 <= year <= 9999
    ensures |YearText(year)| == 4
  {
  }

  lemma MonthDayOrder(m: nat, d: nat, n: nat, e: nat)
    requires m < 100 && d < 100 && n < 100 && e < 100
    ensures TextLess("-" + Two(m) + "-" + Two(d), "-" + Two(n) + "-" + Two(e)) <==> m < n || (m == n && d < e)
  {
    TwoOrders(m, n);
    TwoOrders(d, e);
    hide Two;
    DashOrder(Two(d), Two(e));
    DashOrder(Two(m) + ("-" + Two(d)), Two(n) + ("-" + Two(e)));
    TextLessConcat(Two(m), Two(n), "-" + Two(d), "-" + Two(e));
    assert "-" + Two(m) + "-" + Two(d) == "-" + (Two(m) + ("-" + Two(d)));
    assert "-" + Two(n) + "-" + Two(e) == "-" + (Two(n) + ("-" + Two(e)));
  }

  lemma DashOrder(a: string, b: string)
    ensures TextLess("-" + a, "-" + b) <==> TextLess(a, b)
  {
    assert ("-" + a)[1..] == a && ("-" + b)[1..] == b;
  }

  // ---- Weeks ----

  /** time.Weekday: Sunday is 0. */
  function Weekday(d: Day): (w: nat)
    ensures w < 7
  {
    (Ordinal(d) + 6) % 7
  }

  /** The weekday of every day: 1 January 1970 was a Thursday, and each day follows its predecessor's weekday. */
  lemma WeekdayOfAll(d: Day)
    ensures Weekday(Date(1970, 1, 1)) == 4 && Weekday(d) == (Weekday(Previous(d)) + 1) % 7
    ensures Ordinal(Date(1970, 1, 1)) == 719528
  {
    OrdinalOfPrevious(d);
    WeekdayNext(Ordinal(d));
  }

  lemma WeekdayNext(n: int)
    ensures (n + 6) % 7 == ((n - 1 + 6) % 7 + 1) % 7
  {
  }

  /** The lengths of the months, and February's in every year: the Gregorian rule. */
  lemma MonthLengths(year: int, day: int)
    ensures forall month :: month in {1, 3, 5, 7, 8, 10, 12} ==> (Valid(Date(year, month, day)) <==> 1 <= day <= 31)
    ensures forall month :: month in {4, 6, 9, 11} ==> (Valid(Date(year, month, day)) <==> 1 <= day <= 30)
    ensures Valid(Date(year, 2, day)) <==> 1 <= day <= 28 || (day == 29 && YearStart(year + 1) - YearStart(year) == 366)
    ensures YearStart(year + 1) - YearStart(year) == 366 <==> year % 400 == 0 || (year % 4 == 0 && year % 100 != 0)
  {
    YearLength(year);
    CenturiesAreFourth(year);
  }

  predicate IsMonday(d: Day) {
    Weekday(d) == 1
  }

  /** The Monday a day is counted under. */
  function WeekStart(d: Day): Day {
    Back(d, (Weekday(d) + 6) % 7)
  }

  lemma WeekArithmetic(monday: int, day: int, start: int)
    requires start == day - ((day + 6) % 7 + 6) % 7
    ensures (monday + 6) % 7 == 1 && monday <= day < monday + 7 <==> monday == start
  {
    var w := ((day + 6) % 7 + 6) % 7;
    assert w == (day + 5) % 7;
    assert day + 5 == 7 * ((day + 5) / 7) + w;
    if (monday + 6) % 7 == 1 {
      assert monday + 6 == 7 * ((monday + 6) / 7) + 1;
    }
    assert start + 6 == 7 * ((day + 5) / 7) + 1;
  }

  /** Each day belongs to exactly one Monday-based week. */
  lemma OneWeek(d: Day, monday: Day)
    ensures IsMonday(monday) && Ordinal(monday) <= Ordinal(d) < Ordinal(monday) + 7 <==> monday == WeekStart(d)
  {
    hide Ordinal, Back;
    var n := (Weekday(d) + 6) % 7;
    assert WeekStart(d) == Back(d, n);
    OrdinalOfBack(d, n);
    OrdinalOrders(monday, WeekStart(d));
    WeekArithmetic(Ordinal(monday), Ordinal(d), Ordinal(WeekStart(d)));
  }
}
