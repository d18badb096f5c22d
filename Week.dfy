/**
  The week resolver getDateInfo (goweek.go:138-168). The clock reading in the
  Asia/Hong_Kong zone is replaced by the civil date `today` it yields; Hong Kong keeps
  no daylight-saving time, so AddDate(0, 0, n) is plain day arithmetic.
 */
module Week {
  import opened Calendar
  import opened Decimal

  /** The four strings goweek.go derives from the reference day. */
  datatype DateInfo = DateInfo(week: string, weekStart: string, weekEnd: string, month: string)

  /** The day the report is about: today, or seven calendar days earlier for last week. */
  function ReferenceDay(today: Date, lastWeek: bool): (r: Date)
    requires ValidDate(today)
    ensures ValidDate(r)
    ensures DayNumber(r) == DayNumber(today) - if lastWeek then 7 else 0
  {
    if lastWeek then AddDays(today, -7) else today
  }

  /** The source's weekDay: Go's weekday with Sunday moved from 0 to 7 (Monday = 1). */
  function WeekdayNumber(d: Date): (k: int)
    requires ValidDate(d)
    ensures 1 <= k <= 7
    ensures k == DayNumber(d) % 7 + 1
  {
    WeekArith(DayNumber(d));
    if Weekday(d) == Sunday then 7 else Weekday(d)
  }

  /** now.AddDate(0, 0, -weekDay + 1) */
  function WeekStart(d: Date): (r: Date)
    requires ValidDate(d)
    ensures ValidDate(r) && Weekday(r) == Monday
    ensures DayNumber(r) <= DayNumber(d) <= DayNumber(r) + 6
    ensures Weekday(d) == Sunday ==> DayNumber(r) == DayNumber(d) - 6
    ensures DayNumber(r) == DayNumber(d) - DayNumber(d) % 7
  {
    var k := WeekdayNumber(d);
    WeekArith(DayNumber(d));
    AddDays(d, -k + 1)
  }

  /** now.AddDate(0, 0, 5 - weekDay) */
  function WeekEnd(d: Date): (r: Date)
    requires ValidDate(d)
    ensures ValidDate(r) && Weekday(r) == Friday
    ensures DayNumber(r) == DayNumber(WeekStart(d)) + 4
  {
    var k := WeekdayNumber(d);
    WeekArith(DayNumber(d));
    AddDays(d, 5 - k)
  }

  /** t.Format("2006/01/02") */
  function SlashedDate(d: Date): string {
    FormatInt(d.year, 4) + "/" + FormatInt(d.month, 2) + "/" + FormatInt(d.day, 2)
  }

  /** t.Format("2006-01") */
  function YearMonth(d: Date): string {
    FormatInt(d.year, 4) + "-" + FormatInt(d.month, 2)
  }

  /** getDateInfo(lastWeek), with the clock reading passed in as `today`. */
  function GetDateInfo(today: Date, lastWeek: bool): (info: DateInfo)
    requires ValidDate(today)
    ensures |info.week| == 2 && AllDigits(info.week)
    ensures Value(info.week) == ISOWeek(ReferenceDay(today, lastWeek)).week
  {
    var now := ReferenceDay(today, lastWeek);
    var weekNo := ISOWeek(now).week;
    DateInfo(
      FormatInt(weekNo, 2),
      SlashedDate(WeekStart(now)),
      SlashedDate(WeekEnd(now)),
      YearMonth(now))
  }

  // ---------------------------------------------------------------------------
  // What the rendered strings say

  /** s is "YYYY/MM/DD" for d. */
  predicate IsSlashedText(s: string, d: Date) {
    && |s| == 10 && s[4] == '/' && s[7] == '/'
    && AllDigits(s[..4]) && AllDigits(s[5..7]) && AllDigits(s[8..])
    && Value(s[..4]) == d.year && Value(s[5..7]) == d.month && Value(s[8..]) == d.day
  }

  /** s is "YYYY-MM" for year y and month m. */
  predicate IsYearMonthText(s: string, y: int, m: int) {
    && |s| == 7 && s[4] == '-'
    && AllDigits(s[..4]) && AllDigits(s[5..])
    && Value(s[..4]) == y && Value(s[5..]) == m
  }

  lemma SlashedDateFields(d: Date)
    requires ValidDate(d) && 0 <= d.year < 10000
    ensures IsSlashedText(SlashedDate(d), d)
  {
    var y, m, dd := FormatInt(d.year, 4), FormatInt(d.month, 2), FormatInt(d.day, 2);
    var s := SlashedDate(d);
    assert s[..4] == y && s[5..7] == m && s[8..] == dd;
  }

  lemma YearMonthFields(d: Date)
    requires ValidDate(d) && 0 <= d.year < 10000
    ensures IsYearMonthText(YearMonth(d), d.year, d.month)
  {
    var s := YearMonth(d);
    assert s[..4] == FormatInt(d.year, 4) && s[5..] == FormatInt(d.month, 2);
  }

  /** Two dates less than a year apart lie in the same or in adjacent years. */
  lemma NearbyYears(a: Date, b: Date)
    requires ValidDate(a) && ValidDate(b)
    requires -365 < DayNumber(b) - DayNumber(a) < 365
    ensures a.year - 1 <= b.year <= a.year + 1
  {
    if b.year < a.year - 1 {
      YearBounds(a);
      YearBounds(b);
      YearsApart(b.year + 1, a.year);
      assert false;
    } else if b.year > a.year + 1 {
      YearBounds(a);
      YearBounds(b);
      YearsApart(a.year + 1, b.year);
      assert false;
    }
  }

  /** For a reference day in the years 2 to 9998, its week stays within four-digit years. */
  lemma FourDigitYears(today: Date, lastWeek: bool)
    requires ValidDate(today) && 2 <= today.year <= 9998
    ensures var now := ReferenceDay(today, lastWeek);
            && 0 < now.year < 10000
            && 0 <= WeekStart(now).year < 10000
            && 0 <= WeekEnd(now).year < 10000
  {
    var now := ReferenceDay(today, lastWeek);
    var start, end := WeekStart(now), WeekEnd(now);
    YearOrder(now, today);
    NearbyYears(today, now);
    YearOrder(start, now);
    NearbyYears(now, start);
    NearbyYears(now, end);
  }

  /**
    What getDateInfo returns, field by field, for a reference day whose neighbouring
    weeks stay within the four-digit years: the ISO week number in two digits, the
    Monday and the Friday of the reference day's week as "YYYY/MM/DD", and the
    reference day's own year and month (not those of the week's Monday or Friday).
   */
  lemma DateInfoFields(today: Date, lastWeek: bool)
    requires ValidDate(today) && 2 <= today.year <= 9998
    ensures var now := ReferenceDay(today, lastWeek);
            var info := GetDateInfo(today, lastWeek);
            && |info.week| == 2 && Value(info.week) == ISOWeek(now).week
            && IsSlashedText(info.weekStart, WeekStart(now))
            && IsSlashedText(info.weekEnd, WeekEnd(now))
            && IsYearMonthText(info.month, now.year, now.month)
  {
    var now := ReferenceDay(today, lastWeek);
    FourDigitYears(today, lastWeek);
    SlashedDateFields(WeekStart(now));
    SlashedDateFields(WeekEnd(now));
    YearMonthFields(now);
  }

  // ---------------------------------------------------------------------------
  // Week boundaries and the ISO week

  /** Days in the same Monday-to-Sunday week have the same Thursday, hence ISO week. */
  lemma SameWeekSameISOWeek(a: Date, b: Date)
    requires ValidDate(a) && ValidDate(b)
    requires DayNumber(a) - DayNumber(a) % 7 == DayNumber(b) - DayNumber(b) % 7
    ensures ThursdayOf(a) == ThursdayOf(b) && ISOWeek(a) == ISOWeek(b)
  {
    DayNumberInjective(ThursdayOf(a), ThursdayOf(b));
  }

  /**
    The week start and the week end belong to the reference day's ISO week: the
    Monday and the Friday of the week containing it.
   */
  lemma BoundariesInSameISOWeek(d: Date)
    requires ValidDate(d)
    ensures ISOWeek(WeekStart(d)) == ISOWeek(d) && ISOWeek(WeekEnd(d)) == ISOWeek(d)
  {
    StartInSameISOWeek(d);
    EndInSameISOWeek(d);
  }

  lemma StartInSameISOWeek(d: Date)
    requires ValidDate(d)
    ensures ISOWeek(WeekStart(d)) == ISOWeek(d)
  {
    var s := WeekStart(d);
    DivMod7(DayNumber(s), DayNumber(d) / 7, 0);
    SameWeekSameISOWeek(s, d);
  }

  lemma EndInSameISOWeek(d: Date)
    requires ValidDate(d)
    ensures ISOWeek(WeekEnd(d)) == ISOWeek(d)
  {
    var e := WeekEnd(d);
    DivMod7(DayNumber(e), DayNumber(d) / 7, 4);
    SameWeekSameISOWeek(e, d);
  }

  /** The last-week result is the this-week result for the day seven days earlier. */
  lemma LastWeekIsWeekBefore(today: Date)
    requires ValidDate(today)
    ensures GetDateInfo(today, true) == GetDateInfo(AddDays(today, -7), false)
  {
  }

  /** Last week's Monday and Friday are this week's moved back exactly seven days. */
  lemma LastWeekBoundaries(today: Date)
    requires ValidDate(today)
    ensures WeekStart(ReferenceDay(today, true)) == AddDays(WeekStart(today), -7)
    ensures WeekEnd(ReferenceDay(today, true)) == AddDays(WeekEnd(today), -7)
  {
    var n := DayNumber(today);
    var p := ReferenceDay(today, true);
    assert DayNumber(p) == n - 7;
    WeekEarlier(n);
    var s, s' := WeekStart(p), AddDays(WeekStart(today), -7);
    assert DayNumber(s) == DayNumber(s');
    DayNumberInjective(s, s');
    var e, e' := WeekEnd(p), AddDays(WeekEnd(today), -7);
    assert DayNumber(e) == DayNumber(e');
    DayNumberInjective(e, e');
  }

  /**
    Two runs in one Monday-to-Sunday week get the same DateInfo when their reference
    days also share the year and month that the month label (goweek.go:165) is taken
    from.
   */
  lemma SameWeekSameMonthSameInfo(a: Date, b: Date, lastWeek: bool)
    requires ValidDate(a) && ValidDate(b)
    requires DayNumber(a) - DayNumber(a) % 7 == DayNumber(b) - DayNumber(b) % 7
    requires var ra, rb := ReferenceDay(a, lastWeek), ReferenceDay(b, lastWeek);
             ra.year == rb.year && ra.month == rb.month
    ensures GetDateInfo(a, lastWeek) == GetDateInfo(b, lastWeek)
  {
    SameWeekSameFields(a, b, lastWeek);
  }

  /**
    Two runs in one Monday-to-Sunday week get the same week number, week start and week
    end; only the month label can differ.
   */
  lemma SameWeekSameFields(a: Date, b: Date, lastWeek: bool)
    requires ValidDate(a) && ValidDate(b)
    requires DayNumber(a) - DayNumber(a) % 7 == DayNumber(b) - DayNumber(b) % 7
    ensures var ia, ib := GetDateInfo(a, lastWeek), GetDateInfo(b, lastWeek);
            ia.week == ib.week && ia.weekStart == ib.weekStart && ia.weekEnd == ib.weekEnd
  {
    var ra, rb := ReferenceDay(a, lastWeek), ReferenceDay(b, lastWeek);
    WeekShift(DayNumber(a), DayNumber(b), if lastWeek then 7 else 0);
    SameWeekSameISOWeek(ra, rb);
    SameWeekSameBoundaries(ra, rb);
  }

  /** Moving two days of one week back by the same whole number of weeks keeps them together. */
  lemma WeekShift(x: int, y: int, back: int)
    requires back == 0 || back == 7
    requires x - x % 7 == y - y % 7
    ensures (x - back) - (x - back) % 7 == (y - back) - (y - back) % 7
  {
    if back == 7 {
      WeekEarlier(x);
      WeekEarlier(y);
    }
  }

  lemma SameWeekSameBoundaries(a: Date, b: Date)
    requires ValidDate(a) && ValidDate(b)
    requires DayNumber(a) - DayNumber(a) % 7 == DayNumber(b) - DayNumber(b) % 7
    ensures WeekStart(a) == WeekStart(b) && WeekEnd(a) == WeekEnd(b)
  {
    DayNumberInjective(WeekStart(a), WeekStart(b));
    DayNumberInjective(WeekEnd(a), WeekEnd(b));
  }

  // ---------------------------------------------------------------------------
  // Worked examples

  /** A Wednesday in the middle of May 2024. */
  lemma MidMay2024()
    ensures GetDateInfo(Date(2024, 5, 15), false) == DateInfo("20", "2024/05/13", "2024/05/17", "2024-05")
  {
    MidMay2024Week();
    MidMay2024Text();
  }

  lemma MidMay2024Week()
    ensures ISOWeek(Date(2024, 5, 15)) == YearWeek(2024, 20)
    ensures WeekStart(Date(2024, 5, 15)) == Date(2024, 5, 13) && WeekEnd(Date(2024, 5, 15)) == Date(2024, 5, 17)
  {
    DaysBeforeYearClosed(2024);
    ExampleWeek(Date(2024, 5, 15), 739020, Date(2024, 5, 16), Date(2024, 5, 13), Date(2024, 5, 17));
    MidMay2024Thursday();
  }

  lemma MidMay2024Thursday()
    ensures DayOfYear(Date(2024, 5, 16)) == 137
  {
  }

  lemma MidMay2024Text()
    ensures FormatInt(20, 2) == "20"
    ensures SlashedDate(Date(2024, 5, 13)) == "2024/05/13"
    ensures SlashedDate(Date(2024, 5, 17)) == "2024/05/17"
    ensures YearMonth(Date(2024, 5, 15)) == "2024-05"
  {
    TwoDigits(20);
    SlashedDigits(Date(2024, 5, 13));
    SlashedDigits(Date(2024, 5, 17));
    YearMonthDigits(Date(2024, 5, 15));
  }

  /**
    A Sunday: its week starts six days earlier, in the previous year and month, and
    belongs to ISO week 53 of 2020, while the month label stays that of the Sunday.
   */
  lemma NewYearSunday2021()
    ensures GetDateInfo(Date(2021, 1, 3), false) == DateInfo("53", "2020/12/28", "2021/01/01", "2021-01")
  {
    NewYearSunday2021Week();
    NewYearSunday2021Text();
  }

  lemma NewYearSunday2021Week()
    ensures ISOWeek(Date(2021, 1, 3)) == YearWeek(2020, 53)
    ensures WeekStart(Date(2021, 1, 3)) == Date(2020, 12, 28) && WeekEnd(Date(2021, 1, 3)) == Date(2021, 1, 1)
  {
    DaysBeforeYearClosed(2020);
    DaysBeforeYearClosed(2021);
    ExampleWeek(Date(2021, 1, 3), 737792, Date(2020, 12, 31), Date(2020, 12, 28), Date(2021, 1, 1));
    NewYearSunday2021Thursday();
  }

  lemma NewYearSunday2021Thursday()
    ensures DayOfYear(Date(2020, 12, 31)) == 366
  {
  }

  lemma NewYearSunday2021Text()
    ensures FormatInt(53, 2) == "53"
    ensures SlashedDate(Date(2020, 12, 28)) == "2020/12/28"
    ensures SlashedDate(Date(2021, 1, 1)) == "2021/01/01"
    ensures YearMonth(Date(2021, 1, 3)) == "2021-01"
  {
    TwoDigits(53);
    SlashedDigits(Date(2020, 12, 28));
    SlashedDigits(Date(2021, 1, 1));
    YearMonthDigits(Date(2021, 1, 3));
  }

  /** The ten characters of SlashedDate(d) for a four-digit year. */
  lemma SlashedDigits(d: Date)
    requires 1000 <= d.year < 10000 && 0 <= d.month < 100 && 0 <= d.day < 100
    ensures SlashedDate(d) == [DigitChar(d.year / 1000), DigitChar(d.year / 100 % 10),
                               DigitChar(d.year / 10 % 10), DigitChar(d.year % 10), '/',
                               DigitChar(d.month / 10), DigitChar(d.month % 10), '/',
                               DigitChar(d.day / 10), DigitChar(d.day % 10)]
  {
    FourDigits(d.year);
    TwoDigits(d.month);
    TwoDigits(d.day);
  }

  /** The seven characters of YearMonth(d) for a four-digit year. */
  lemma YearMonthDigits(d: Date)
    requires 1000 <= d.year < 10000 && 0 <= d.month < 100
    ensures YearMonth(d) == [DigitChar(d.year / 1000), DigitChar(d.year / 100 % 10),
                             DigitChar(d.year / 10 % 10), DigitChar(d.year % 10), '-',
                             DigitChar(d.month / 10), DigitChar(d.month % 10)]
  {
    FourDigits(d.year);
    TwoDigits(d.month);
  }

  /** FormatInt(n, 2) for n < 100: the tens digit, then the units digit. */
  lemma TwoDigits(n: nat)
    requires n < 100
    ensures FormatInt(n, 2) == [DigitChar(n / 10), DigitChar(n % 10)]
  {
    if n >= 10 {
      assert Digits(n / 10) == [DigitChar(n / 10)];
    }
  }

  /** FormatInt(n, 4) for a four-digit n: its digits from the thousands down. */
  lemma FourDigits(n: nat)
    requires 1000 <= n < 10000
    ensures FormatInt(n, 4) == [DigitChar(n / 1000), DigitChar(n / 100 % 10), DigitChar(n / 10 % 10), DigitChar(n % 10)]
  {
    assert n / 10 / 10 == n / 100 && n / 100 / 10 == n / 1000;
    assert Digits(n / 100) == [DigitChar(n / 1000), DigitChar(n / 100 % 10)];
    assert Digits(n / 10) == [DigitChar(n / 1000), DigitChar(n / 100 % 10), DigitChar(n / 10 % 10)];
  }

  /**
    ISO week 18 of 2024 runs from Monday 2024-04-29 to Sunday 2024-05-05: a Tuesday and
    the Thursday of that week get the same week field but different month labels.
   */
  lemma Week18Of2024SpansTwoMonths()
    ensures GetDateInfo(Date(2024, 4, 30), false).week == "18"
    ensures GetDateInfo(Date(2024, 5, 2), false).week == "18"
    ensures GetDateInfo(Date(2024, 4, 30), false).month == "2024-04"
    ensures GetDateInfo(Date(2024, 5, 2), false).month == "2024-05"
  {
    Week18Of2024Tuesday();
    Week18Of2024Days();
    SameWeekSameFields(Date(2024, 4, 30), Date(2024, 5, 2), false);
    Week18Of2024Text();
  }

  lemma Week18Of2024Tuesday()
    ensures ISOWeek(Date(2024, 4, 30)) == YearWeek(2024, 18)
  {
    DaysBeforeYearClosed(2024);
    ExampleWeek(Date(2024, 4, 30), 739005, Date(2024, 5, 2), Date(2024, 4, 29), Date(2024, 5, 3));
    Week18Of2024Thursday();
  }

  lemma Week18Of2024Days()
    ensures DayNumber(Date(2024, 4, 30)) == 739005 && DayNumber(Date(2024, 5, 2)) == 739007
  {
    DaysBeforeYearClosed(2024);
  }

  lemma Week18Of2024Thursday()
    ensures DayOfYear(Date(2024, 5, 2)) == 123
  {
  }

  lemma Week18Of2024Text()
    ensures FormatInt(18, 2) == "18"
    ensures YearMonth(Date(2024, 4, 30)) == "2024-04"
    ensures YearMonth(Date(2024, 5, 2)) == "2024-05"
  {
    TwoDigits(18);
    YearMonthDigits(Date(2024, 4, 30));
    YearMonthDigits(Date(2024, 5, 2));
  }

  /** Identifies the Thursday, Monday and Friday of d's week from d's day number n. */
  lemma ExampleWeek(d: Date, n: int, thu: Date, mon: Date, fri: Date)
    requires ValidDate(d) && ValidDate(thu) && ValidDate(mon) && ValidDate(fri)
    requires DayNumber(d) == n
    requires DayNumber(thu) == n - n % 7 + 3
    requires DayNumber(mon) == n - n % 7 && DayNumber(fri) == n - n % 7 + 4
    ensures ThursdayOf(d) == thu && WeekStart(d) == mon && WeekEnd(d) == fri
    ensures ISOWeek(d) == YearWeek(thu.year, (DayOfYear(thu) - 1) / 7 + 1)
  {
    DayNumberInjective(ThursdayOf(d), thu);
    DayNumberInjective(WeekStart(d), mon);
    DayNumberInjective(WeekEnd(d), fri);
    ISOWeekOfThursday(d, thu);
  }

  lemma ISOWeekOfThursday(d: Date, thu: Date)
    requires ValidDate(d) && ThursdayOf(d) == thu
    ensures ISOWeek(d) == YearWeek(thu.year, (DayOfYear(thu) - 1) / 7 + 1)
  {
  }
}
