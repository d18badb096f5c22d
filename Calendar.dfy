/**
  Proleptic Gregorian civil dates, day arithmetic and the ISO 8601 week calendar,
  as goweek.go obtains them from Go's time package (Weekday, AddDate, ISOWeek).

  Every date is numbered by its distance in days from 0001-01-01 (a Monday), so that
  adding days, weekdays and week boundaries become statements about integers.
 */
module Calendar {

  datatype Date = Date(year: int, month: int, day: int)

  // Go's time.Weekday numbering: Sunday is 0, Saturday is 6.
  const Sunday := 0
  const Monday := 1
  const Thursday := 4
  const Friday := 5

  predicate IsLeapYear(y: int) {
    y % 4 == 0 && (y % 100 != 0 || y % 400 == 0)
  }

  function DaysInYear(y: int): int {
    if IsLeapYear(y) then 366 else 365
  }

  /** Days before month m in a common year; entry 13 is the length of the year. */
  function CommonDaysBefore(m: int): int
    requires 1 <= m <= 13
  {
    if m == 1 then 0 else if m == 2 then 31 else if m == 3 then 59
    else if m == 4 then 90 else if m == 5 then 120 else if m == 6 then 151
    else if m == 7 then 181 else if m == 8 then 212 else if m == 9 then 243
    else if m == 10 then 273 else if m == 11 then 304 else if m == 12 then 334
    else 365
  }

  /** Days of year y that come before the first of month m (m == 13: the whole year). */
  function DaysBeforeMonth(y: int, m: int): int
    requires 1 <= m <= 13
  {
    CommonDaysBefore(m) + if m > 2 && IsLeapYear(y) then 1 else 0
  }

  function DaysInMonth(y: int, m: int): (n: int)
    requires 1 <= m <= 12
    ensures 28 <= n <= 31
    ensures n == 31 <==> m == 1 || m == 3 || m == 5 || m == 7 || m == 8 || m == 10 || m == 12
    ensures n == 30 <==> m == 4 || m == 6 || m == 9 || m == 11
    ensures m == 2 ==> (n == 29 <==> IsLeapYear(y))
  {
    if m == 2 && IsLeapYear(y) then 29 else CommonDaysBefore(m + 1) - CommonDaysBefore(m)
  }

  predicate ValidDate(d: Date) {
    1 <= d.month <= 12 && 1 <= d.day <= DaysInMonth(d.year, d.month)
  }

  /**
    Days from 0001-01-01 to January 1 of year y (negative before year 1), counted year
    by year from 2001-01-01, the first day after five whole 400-year cycles of 146097
    days. DaysBeforeYearClosed gives the usual closed form.
   */
  function DaysBeforeYear(y: int): int
    decreases if y < 2001 then 2001 - y else y - 2001
  {
    if y == 2001 then 5 * 146097
    else if y > 2001 then DaysBeforeYear(y - 1) + DaysInYear(y - 1)
    else DaysBeforeYear(y + 1) - DaysInYear(y)
  }

  /** Days from 0001-01-01 to d. */
  function DayNumber(d: Date): int
    requires ValidDate(d)
  {
    DaysBeforeYear(d.year) + DaysBeforeMonth(d.year, d.month) + d.day - 1
  }

  /** Position of d in its year, January 1 being 1 (Go's YearDay). */
  function DayOfYear(d: Date): (n: int)
    requires ValidDate(d)
    ensures 1 <= n <= DaysInYear(d.year)
    ensures n == DayNumber(d) - DaysBeforeYear(d.year) + 1
  {
    MonthPrefixBounded(d.year, d.month);
    DaysBeforeMonth(d.year, d.month) + d.day
  }

  lemma MonthPrefixBounded(y: int, m: int)
    requires 1 <= m <= 12
    ensures DaysBeforeMonth(y, m + 1) == DaysBeforeMonth(y, m) + DaysInMonth(y, m)
    ensures DaysBeforeMonth(y, 13) == DaysInYear(y)
    ensures DaysBeforeMonth(y, m) + DaysInMonth(y, m) <= DaysInYear(y)
  {
  }

  lemma YearLength(y: int)
    ensures DaysBeforeYear(y + 1) == DaysBeforeYear(y) + DaysInYear(y)
  {
  }

  /**
    The closed form of DaysBeforeYear: 365 days a year plus one leap day for every
    fourth year, except centuries not divisible by 400.
   */
  lemma {:induction false} DaysBeforeYearClosed(y: int)
    ensures DaysBeforeYear(y) == 365 * (y - 1) + (y - 1) / 4 - (y - 1) / 100 + (y - 1) / 400
    decreases if y < 2001 then 2001 - y else y - 2001
  {
    if y > 2001 {
      DaysBeforeYearClosed(y - 1);
      LeapStep(y - 1);
    } else if y < 2001 {
      DaysBeforeYearClosed(y + 1);
      LeapStep(y);
    }
  }

  /** How the leap-day counts grow from year y - 1 to year y. */
  lemma LeapStep(y: int)
    ensures y / 4 == (y - 1) / 4 + (if y % 4 == 0 then 1 else 0)
    ensures y / 100 == (y - 1) / 100 + (if y % 100 == 0 then 1 else 0)
    ensures y / 400 == (y - 1) / 400 + (if y % 400 == 0 then 1 else 0)
    ensures y % 400 == 0 ==> y % 100 == 0
    ensures y % 100 == 0 ==> y % 4 == 0
  {
    FloorStep4(y);
    FloorStep100(y);
    FloorStep400(y);
    CenturyDivides(y);
  }

  lemma FloorStep4(y: int)
    ensures y / 4 == (y - 1) / 4 + (if y % 4 == 0 then 1 else 0)
  {
  }

  lemma FloorStep100(y: int)
    ensures y / 100 == (y - 1) / 100 + (if y % 100 == 0 then 1 else 0)
  {
  }

  lemma FloorStep400(y: int)
    ensures y / 400 == (y - 1) / 400 + (if y % 400 == 0 then 1 else 0)
  {
  }

  lemma CenturyDivides(y: int)
    ensures y % 400 == 0 ==> y % 100 == 0
    ensures y % 100 == 0 ==> y % 4 == 0
  {
    if y % 400 == 0 {
      MultipleOf100(y, 4 * (y / 400));
    }
    if y % 100 == 0 {
      MultipleOf4(y, 25 * (y / 100));
    }
  }

  lemma MultipleOf100(a: int, q: int)
    requires a == 100 * q
    ensures a % 100 == 0
  {
  }

  lemma MultipleOf4(a: int, q: int)
    requires a == 4 * q
    ensures a % 4 == 0
  {
  }

  /** The month of year y holding day doy (counted from 0), searched from month m. */
  function MonthFrom(y: int, doy: int, m: int): (r: int)
    requires 1 <= m <= 12 && DaysBeforeMonth(y, m) <= doy < DaysInYear(y)
    ensures 1 <= r <= 12 && DaysBeforeMonth(y, r) <= doy < DaysBeforeMonth(y, r + 1)
    decreases 12 - m
  {
    MonthPrefixBounded(y, m);
    if doy < DaysBeforeMonth(y, m + 1) then m else MonthFrom(y, doy, m + 1)
  }

  /** The year holding day number n, searched upwards from year y. */
  function YearAbove(n: int, y: int): (r: int)
    requires DaysBeforeYear(y) <= n
    ensures DaysBeforeYear(r) <= n < DaysBeforeYear(r + 1)
    decreases n - DaysBeforeYear(y)
  {
    YearLength(y);
    if n < DaysBeforeYear(y + 1) then y else YearAbove(n, y + 1)
  }

  /** The year holding day number n, searched downwards from year y. */
  function YearBelow(n: int, y: int): (r: int)
    requires n < DaysBeforeYear(y + 1)
    ensures DaysBeforeYear(r) <= n < DaysBeforeYear(r + 1)
    decreases DaysBeforeYear(y + 1) - n
  {
    YearLength(y);
    if DaysBeforeYear(y) <= n then y else YearBelow(n, y - 1)
  }

  /**
    The date with day number n. Go keeps a time as a count from a fixed origin and
    derives year, month and day from it (absDate); this is that conversion, stated by
    the year and the month that hold the day.
   */
  function FromDayNumber(n: int): (d: Date)
    ensures ValidDate(d) && DayNumber(d) == n
  {
    var y := if n >= DaysBeforeYear(2001) then YearAbove(n, 2001) else YearBelow(n, 2000);
    YearLength(y);
    var doy := n - DaysBeforeYear(y);
    var m := MonthFrom(y, doy, 1);
    MonthPrefixBounded(y, m);
    Date(y, m, doy - DaysBeforeMonth(y, m) + 1)
  }

  /**
    The date n days after d (before it when n < 0): Go's t.AddDate(0, 0, n), which
    moves the day count, in a zone without daylight-saving shifts.
   */
  function AddDays(d: Date, n: int): (r: Date)
    requires ValidDate(d)
    ensures ValidDate(r) && DayNumber(r) == DayNumber(d) + n
  {
    FromDayNumber(DayNumber(d) + n)
  }

  /** The day number of d falls within d's year. */
  lemma YearBounds(d: Date)
    requires ValidDate(d)
    ensures DaysBeforeYear(d.year) <= DayNumber(d) < DaysBeforeYear(d.year + 1)
  {
    assert 1 <= DayOfYear(d) <= DaysInYear(d.year);
    YearLength(d.year);
  }

  /** The day number of d falls within d's month. */
  lemma MonthBounds(d: Date)
    requires ValidDate(d)
    ensures DaysBeforeMonth(d.year, d.month) <= DayNumber(d) - DaysBeforeYear(d.year)
                                               < DaysBeforeMonth(d.year, d.month + 1)
  {
    MonthPrefixBounded(d.year, d.month);
  }

  lemma {:induction false} YearsApart(a: int, b: int)
    requires a <= b
    ensures DaysBeforeYear(b) - DaysBeforeYear(a) >= 365 * (b - a)
    decreases b - a
  {
    if a < b {
      YearsApart(a, b - 1);
      YearLength(b - 1);
    }
  }

  lemma {:induction false} MonthsApart(y: int, a: int, b: int)
    requires 1 <= a <= b <= 13
    ensures DaysBeforeMonth(y, b) - DaysBeforeMonth(y, a) >= 28 * (b - a)
    decreases b - a
  {
    if a < b {
      MonthsApart(y, a, b - 1);
      MonthPrefixBounded(y, b - 1);
    }
  }

  /** Later days are in the same or later years. */
  lemma YearOrder(a: Date, b: Date)
    requires ValidDate(a) && ValidDate(b)
    requires DayNumber(a) <= DayNumber(b)
    ensures a.year <= b.year
  {
    if a.year > b.year {
      YearBounds(a);
      YearBounds(b);
      YearsApart(b.year + 1, a.year);
      assert false;
    }
  }

  /** A valid date is determined by its day number. */
  lemma DayNumberInjective(a: Date, b: Date)
    requires ValidDate(a) && ValidDate(b)
    requires DayNumber(a) == DayNumber(b)
    ensures a == b
  {
    YearBounds(a);
    YearBounds(b);
    if a.year < b.year {
      YearsApart(a.year + 1, b.year);
      assert false;
    }
    if b.year < a.year {
      YearsApart(b.year + 1, a.year);
      assert false;
    }
    MonthBounds(a);
    MonthBounds(b);
    if a.month < b.month {
      MonthsApart(a.year, a.month + 1, b.month);
      assert false;
    }
    if b.month < a.month {
      MonthsApart(a.year, b.month + 1, a.month);
      assert false;
    }
  }

  lemma AddDaysAdd(d: Date, m: int, n: int)
    requires ValidDate(d)
    ensures AddDays(AddDays(d, m), n) == AddDays(d, m + n)
  {
    DayNumberInjective(AddDays(AddDays(d, m), n), AddDays(d, m + n));
  }

  /** Go's t.Weekday(): Sunday is 0, Monday 1, ..., Saturday 6. */
  function Weekday(d: Date): (w: int)
    requires ValidDate(d)
    ensures 0 <= w < 7
  {
    (DayNumber(d) + 1) % 7
  }

  /** Quotient and remainder of a by 7 are determined by a == 7 * q + r. */
  lemma DivMod7(a: int, q: int, r: int)
    requires a == 7 * q + r && 0 <= r < 7
    ensures a / 7 == q && a % 7 == r
  {
  }

  /**
    Day-number arithmetic of the week: x is a day number, x - x % 7 the Monday of its
    week, and Go's weekday of x is (x + 1) % 7.
   */
  lemma WeekArith(x: int)
    ensures (if (x + 1) % 7 == 0 then 7 else (x + 1) % 7) == x % 7 + 1
    ensures (if 4 - (x + 1) % 7 == 4 then -3 else 4 - (x + 1) % 7) == 3 - x % 7
    ensures (x + 1) % 7 == 0 <==> x % 7 == 6
    ensures (x - x % 7) % 7 == 0
    ensures (x - x % 7 + 1) % 7 == Monday
    ensures (x - x % 7 + 3 + 1) % 7 == Thursday
    ensures (x - x % 7 + 4 + 1) % 7 == Friday
  {
    var q := x / 7;
    if x % 7 == 6 {
      DivMod7(x + 1, q + 1, 0);
    } else {
      DivMod7(x + 1, q, x % 7 + 1);
    }
    DivMod7(x - x % 7, q, 0);
    DivMod7(x - x % 7 + 1, q, 1);
    DivMod7(x - x % 7 + 3 + 1, q, 4);
    DivMod7(x - x % 7 + 4 + 1, q, 5);
  }

  /**
    The Thursday of d's Monday-to-Sunday week, found as Go's ISOWeek finds it: move by
    Thursday - Weekday(d) days, except that a Sunday (shift 4) moves back 3 days.
   */
  function ThursdayShift(d: Date): (delta: int)
    requires ValidDate(d)
    ensures delta == 3 - DayNumber(d) % 7
  {
    WeekArith(DayNumber(d));
    var shift := Thursday - Weekday(d);
    if shift == 4 then -3 else shift
  }

  function ThursdayOf(d: Date): (t: Date)
    requires ValidDate(d)
    ensures ValidDate(t) && Weekday(t) == Thursday
    ensures DayNumber(t) == DayNumber(d) - DayNumber(d) % 7 + 3
  {
    var t := FromDayNumber(DayNumber(d) + ThursdayShift(d));
    DivMod7(DayNumber(t) + 1, DayNumber(d) / 7, 4);
    t
  }

  /**
    Go's t.ISOWeek(): the year and number of the week holding the Thursday of d's week,
    the number counted by the day of the year of that Thursday.
   */
  datatype YearWeek = YearWeek(year: int, week: int)

  function ISOWeek(d: Date): (r: YearWeek)
    requires ValidDate(d)
    ensures 1 <= r.week <= 53
  {
    var t := ThursdayOf(d);
    YearWeek(t.year, (DayOfYear(t) - 1) / 7 + 1)
  }

  /**
    Reference definition of ISO 8601 week 1 of year y: it starts on the Monday on or
    before January 4 (the week holding January 4, hence the year's first Thursday).
    Day number 0 is a Monday, so Mondays are the day numbers divisible by 7.
   */
  function Week1Monday(y: int): int {
    var jan4 := DaysBeforeYear(y) + 3;
    jan4 - jan4 % 7
  }

  /** Week1Monday(y) is the Monday of the week that holds January 4 of year y. */
  lemma Week1MondayOfJanuary4(y: int)
    ensures Week1Monday(y) <= DayNumber(Date(y, 1, 4)) < Week1Monday(y) + 7
    ensures Week1Monday(y) % 7 == 0
  {
    var jan4 := DaysBeforeYear(y) + 3;
    assert DaysBeforeMonth(y, 1) == 0;
    assert DayNumber(Date(y, 1, 4)) == jan4;
    DivMod7(Week1Monday(y), jan4 / 7, 0);
  }

  /** Mondays are the days whose day number is a multiple of seven. */
  lemma MondayIsMultipleOfSeven(d: Date)
    requires ValidDate(d)
    ensures Weekday(d) == Monday <==> DayNumber(d) % 7 == 0
  {
    WeekArith(DayNumber(d));
  }

  /**
    Go's Thursday rule agrees with the ISO 8601 definition: d lies in the week-numbering
    year returned, between its week 1 Monday and the next year's, and the week number
    is one more than the number of whole weeks since that Monday.
   */
  lemma ISOWeekIsStandard(d: Date)
    requires ValidDate(d)
    ensures Week1Monday(ISOWeek(d).year) <= DayNumber(d) < Week1Monday(ISOWeek(d).year + 1)
    ensures ISOWeek(d).week == (DayNumber(d) - Week1Monday(ISOWeek(d).year)) / 7 + 1
  {
    ThursdayInYear(d);
    WeekArithmetic(DayNumber(d), DaysBeforeYear(ISOWeek(d).year), DaysBeforeYear(ISOWeek(d).year + 1),
                   Week1Monday(ISOWeek(d).year), Week1Monday(ISOWeek(d).year + 1));
  }

  /** The Thursday of d's week lies in the week-numbering year, at the day counted. */
  lemma ThursdayInYear(d: Date)
    requires ValidDate(d)
    ensures DaysBeforeYear(ISOWeek(d).year) <= DayNumber(d) - DayNumber(d) % 7 + 3
                                         < DaysBeforeYear(ISOWeek(d).year + 1)
    ensures ISOWeek(d).week == (DayNumber(d) - DayNumber(d) % 7 + 3 - DaysBeforeYear(ISOWeek(d).year)) / 7 + 1
  {
    var t := ThursdayOf(d);
    YearLength(t.year);
  }

  lemma WeekEarlier(x: int)
    ensures (x - 7) % 7 == x % 7
  {
    DivMod7(x - 7, x / 7 - 1, x % 7);
  }

  /**
    The counting argument of ISOWeekIsStandard on day numbers: n is the reference day,
    n - n % 7 + 3 its week's Thursday, which lies in the year spanning [b0, b1).
   */
  lemma WeekArithmetic(n: int, b0: int, b1: int, m0: int, m1: int)
    requires b0 <= n - n % 7 + 3 < b1
    requires m0 == b0 + 3 - (b0 + 3) % 7 && m1 == b1 + 3 - (b1 + 3) % 7
    ensures m0 <= n < m1
    ensures (n - n % 7 + 3 - b0) / 7 == (n - m0) / 7
  {
    var qn, q0, q1 := n / 7, (b0 + 3) / 7, (b1 + 3) / 7;
    assert m0 == 7 * q0 && m1 == 7 * q1;
    assert q0 <= qn;
    assert qn < q1;
    DivMod7(n - m0, qn - q0, n % 7);
    DivMod7(n - n % 7 + 3 - b0, qn - q0, 6 - (b0 + 3) % 7);
  }

  lemma {:induction false} Week1MondayMonotone(a: int, b: int)
    requires a <= b
    ensures Week1Monday(a) <= Week1Monday(b)
    decreases b - a
  {
    if a < b {
      Week1MondayMonotone(a + 1, b);
      YearLength(a);
    }
  }

  /** The weeks of two different week-numbering years never share a day. */
  lemma WeekYearsDisjoint(n: int, y: int, w: int)
    requires Week1Monday(y) <= n < Week1Monday(y + 1)
    requires Week1Monday(w) <= n < Week1Monday(w + 1)
    ensures y == w
  {
    if y < w {
      Week1MondayMonotone(y + 1, w);
    } else if y > w {
      Week1MondayMonotone(w + 1, y);
    }
  }

  /** The week-numbering year of d is the only year whose weeks contain d. */
  lemma ISOWeekYearUnique(d: Date, y: int)
    requires ValidDate(d)
    requires Week1Monday(y) <= DayNumber(d) < Week1Monday(y + 1)
    ensures y == ISOWeek(d).year
  {
    ISOWeekIsStandard(d);
    WeekYearsDisjoint(DayNumber(d), y, ISOWeek(d).year);
  }
}
