/**
 * The proleptic Gregorian calendar on which budget windows are computed.
 *
 * A date is the number of days since 1970-01-01; a naive date-time is the number of
 * nanoseconds since midnight of that day. Dafny's `/` and `%` floor for a positive
 * divisor, so both are meaningful before 1970 as well.
 */
module Calendar {
  const SECOND: int := 1_000_000_000
  const HOUR: int := 3600 * SECOND
  const DAY: int := 24 * HOUR

  /** Days from the first day of year 0 to 1970-01-01, in the count of `DaysBeforeYear`. */
  const EPOCH_DAYS: int := 719_527

  datatype Ymd = Ymd(year: int, month: int, day: int)

  predicate IsLeap(year: int) {
    year % 4 == 0 && (year % 100 != 0 || year % 400 == 0)
  }

  /** The textbook table of month lengths. */
  function MonthLength(year: int, month: int): (n: int)
    requires 1 <= month <= 12
    ensures 28 <= n <= 31
  {
    if month == 2 then (if IsLeap(year) then 29 else 28)
    else if month == 4 || month == 6 || month == 9 || month == 11 then 30
    else 31
  }

  predicate ValidYmd(d: Ymd) {
    1 <= d.month <= 12 && 1 <= d.day <= MonthLength(d.year, d.month)
  }

  function DaysBeforeYear(year: int): int {
    365 * year + (year - 1) / 4 - (year - 1) / 100 + (year - 1) / 400
  }

  function DaysBeforeMonth(year: int, month: int): int
    requires 1 <= month <= 13
  {
    if month == 1 then 0 else DaysBeforeMonth(year, month - 1) + MonthLength(year, month - 1)
  }

  function DayNumber(d: Ymd): int
    requires 1 <= d.month <= 12
  {
    DaysBeforeYear(d.year) + DaysBeforeMonth(d.year, d.month) + d.day - 1 - EPOCH_DAYS
  }

  lemma YearLength(year: int)
    ensures DaysBeforeYear(year + 1) == DaysBeforeYear(year) + (if IsLeap(year) then 366 else 365)
    ensures DaysBeforeMonth(year, 13) == if IsLeap(year) then 366 else 365
  {
    hide *;
    MonthTable(year);
    YearStep(year);
    LeapDays(year);
  }

  /** One if `k` divides the year. */
  function Divides(k: int, year: int): int
    requires k > 0
  {
    if year % k == 0 then 1 else 0
  }

  lemma YearStep(year: int)
    ensures DaysBeforeYear(year + 1) ==
            DaysBeforeYear(year) + 365 + Divides(4, year) - Divides(100, year) + Divides(400, year)
  {
    StepDivides(year, 4);
    StepDivides(year, 100);
    StepDivides(year, 400);
    hide Divides;
  }

  lemma LeapDays(year: int)
    ensures Divides(4, year) - Divides(100, year) + Divides(400, year) == if IsLeap(year) then 1 else 0
  {
    if year % 400 == 0 { HundredDividesToo(year); }
    if year % 100 == 0 { FourDividesToo(year); }
  }

  lemma HundredDividesToo(year: int)
    requires year % 400 == 0
    ensures year % 100 == 0
  {
    var q := year / 400;
    assert year == 100 * (4 * q);
  }

  lemma FourDividesToo(year: int)
    requires year % 100 == 0
    ensures year % 4 == 0
  {
    var q := year / 100;
    assert year == 4 * (25 * q);
  }

  lemma StepDivides(year: int, k: int)
    requires k == 4 || k == 100 || k == 400
    ensures year / k == (year - 1) / k + Divides(k, year)
  {
  }

  lemma MonthTable(year: int)
    ensures DaysBeforeMonth(year, 13) == if IsLeap(year) then 366 else 365
  {
    assert DaysBeforeMonth(year, 4) == if IsLeap(year) then 91 else 90 by {
      assert DaysBeforeMonth(year, 2) == 31;
    }
    assert DaysBeforeMonth(year, 7) == DaysBeforeMonth(year, 4) + 91 by {
      assert DaysBeforeMonth(year, 5) == DaysBeforeMonth(year, 4) + 30;
    }
    assert DaysBeforeMonth(year, 10) == DaysBeforeMonth(year, 7) + 92 by {
      assert DaysBeforeMonth(year, 8) == DaysBeforeMonth(year, 7) + 31;
    }
    assert DaysBeforeMonth(year, 13) == DaysBeforeMonth(year, 10) + 92 by {
      assert DaysBeforeMonth(year, 11) == DaysBeforeMonth(year, 10) + 31;
    }
  }

  lemma {:induction false} YearsIncrease(a: int, b: int)
    requires a < b
    ensures DaysBeforeYear(a) + 365 <= DaysBeforeYear(b)
    decreases b - a
  {
    YearLength(b - 1);
    if a < b - 1 {
      YearsIncrease(a, b - 1);
    }
  }

  lemma {:induction false} MonthsIncrease(year: int, a: int, b: int)
    requires 1 <= a < b <= 13
    ensures DaysBeforeMonth(year, a) + MonthLength(year, a) <= DaysBeforeMonth(year, b)
    decreases b - a
  {
    if a < b - 1 {
      MonthsIncrease(year, a, b - 1);
    }
  }

  /** The year containing a day, found from a mean-year estimate that is off by at most one. */
  function YearOf(date: int): (year: int)
    ensures DaysBeforeYear(year) <= date + EPOCH_DAYS < DaysBeforeYear(year + 1)
  {
    var n := date + EPOCH_DAYS;
    var guess := 400 * n / 146_097;
    YearLength(guess - 1);
    YearLength(guess);
    YearLength(guess + 1);
    assert DaysBeforeYear(guess - 1) <= n < DaysBeforeYear(guess + 2) by {
      GuessIsClose(n);
    }
    if n < DaysBeforeYear(guess) then guess - 1
    else if n < DaysBeforeYear(guess + 1) then guess
    else guess + 1
  }

  lemma GuessIsClose(n: int)
    ensures var guess := 400 * n / 146_097;
            DaysBeforeYear(guess - 1) <= n < DaysBeforeYear(guess + 2)
  {
    var g := 400 * n / 146_097;
    assert 146_097 * g <= 400 * n < 146_097 * g + 146_097;
    YearBounds(g - 1);
    YearBounds(g + 2);
  }

  /** A year starts within two days of its place on the mean-year line. */
  lemma YearBounds(year: int)
    ensures 146_097 * year - 800 <= 400 * DaysBeforeYear(year) <= 146_097 * year + 400
  {
    var y := year - 1;
    assert 4 * (y / 4) <= y < 4 * (y / 4) + 4;
    assert 100 * (y / 100) <= y < 100 * (y / 100) + 100;
    assert 400 * (y / 400) <= y < 400 * (y / 400) + 400;
  }

  function MonthFrom(year: int, month: int, dayOfYear: int): (m: int)
    requires 1 <= month <= 12
    requires DaysBeforeMonth(year, month) <= dayOfYear < DaysBeforeMonth(year, 13)
    ensures 1 <= m <= 12
    ensures DaysBeforeMonth(year, m) <= dayOfYear < DaysBeforeMonth(year, m) + MonthLength(year, m)
    decreases 13 - month
  {
    if dayOfYear < DaysBeforeMonth(year, month + 1) then month
    else MonthFrom(year, month + 1, dayOfYear)
  }

  /** Year, month and day of a date. */
  function Civil(date: int): (d: Ymd)
    ensures ValidYmd(d) && DayNumber(d) == date
  {
    var year := YearOf(date);
    var dayOfYear := date + EPOCH_DAYS - DaysBeforeYear(year);
    YearLength(year);
    var month := MonthFrom(year, 1, dayOfYear);
    Ymd(year, month, dayOfYear - DaysBeforeMonth(year, month) + 1)
  }

  /** A day of the year is told apart by its month. */
  lemma SameYearSameDate(c: Ymd, d: Ymd)
    requires ValidYmd(c) && ValidYmd(d) && c.year == d.year && DayNumber(c) == DayNumber(d)
    ensures c == d
  {
    hide MonthLength;
    if c.month < d.month { MonthsIncrease(d.year, c.month, d.month); }
    if d.month < c.month { MonthsIncrease(d.year, d.month, c.month); }
  }

  /** Days of an earlier year have smaller numbers. */
  lemma YearsOrderDates(c: Ymd, d: Ymd)
    requires ValidYmd(c) && ValidYmd(d) && c.year < d.year
    ensures DayNumber(c) < DayNumber(d)
  {
    MonthBeforeYearEnd(c);
    MonthsNonNegative(d.year, d.month);
    YearLength(c.year);
    hide DaysBeforeMonth, DaysBeforeYear;
    if c.year + 1 < d.year { YearsIncrease(c.year + 1, d.year); }
  }

  /** Calendar dates and day numbers correspond one to one. */
  lemma CivilInverts(d: Ymd)
    requires ValidYmd(d)
    ensures Civil(DayNumber(d)) == d
  {
    hide Civil, DayNumber;
    var c := Civil(DayNumber(d));
    if c.year < d.year { YearsOrderDates(c, d); }
    if d.year < c.year { YearsOrderDates(d, c); }
    SameYearSameDate(c, d);
  }

  lemma MonthBeforeYearEnd(d: Ymd)
    requires ValidYmd(d)
    ensures DaysBeforeMonth(d.year, d.month) + d.day <= DaysBeforeMonth(d.year, 13)
  {
    MonthsIncrease(d.year, d.month, 13);
  }

  lemma MonthsNonNegative(year: int, month: int)
    requires 1 <= month <= 13
    ensures DaysBeforeMonth(year, month) >= 0
  {
    if month > 1 { MonthsIncrease(year, 1, month); }
  }

  /** The day before month `month + 1` starts is the last day of `month`, also over New Year. */
  lemma NextMonthStarts(year: int, month: int)
    requires 1 <= month <= 12
    ensures var next := if month == 12 then Ymd(year + 1, 1, 1) else Ymd(year, month + 1, 1);
            DayNumber(next) == DayNumber(Ymd(year, month, MonthLength(year, month))) + 1
  {
    YearLength(year);
  }

  /** A date lies in a month exactly when it is between that month's first and last day. */
  lemma InMonth(date: int, year: int, month: int)
    requires 1 <= month <= 12
    ensures (Civil(date).year == year && Civil(date).month == month)
       <==> DayNumber(Ymd(year, month, 1)) <= date <= DayNumber(Ymd(year, month, MonthLength(year, month)))
  {
    var first := DayNumber(Ymd(year, month, 1));
    var c := Civil(date);
    DaysOfMonthAreConsecutive(year, month, MonthLength(year, month));
    DaysOfMonthAreConsecutive(year, month, date - first + 1);
    DaysOfMonthAreConsecutive(year, month, c.day);
    hide DayNumber, Civil, MonthLength;
    if first <= date < first + MonthLength(year, month) {
      CivilInverts(Ymd(year, month, date - first + 1));
    }
  }

  lemma DaysOfMonthAreConsecutive(year: int, month: int, day: int)
    requires 1 <= month <= 12
    ensures DayNumber(Ymd(year, month, day)) == DayNumber(Ymd(year, month, 1)) + day - 1
  {
  }

  /** Monday is 0. 1970-01-01 was a Thursday. */
  function WeekdayFromMonday(date: int): (w: int)
    ensures 0 <= w < 7
  {
    (date + 3) % 7
  }

  /** Known dates fix the epoch and the weekday: 2000-02-29 was a Tuesday, 2026-05-21 a Thursday. */
  lemma KnownDates()
    ensures Civil(0) == Ymd(1970, 1, 1)
    ensures WeekdayFromMonday(DayNumber(Ymd(2000, 2, 29))) == 1
    ensures WeekdayFromMonday(DayNumber(Ymd(2026, 5, 21))) == 3
  {
    CivilInverts(Ymd(1970, 1, 1));
    assert DayNumber(Ymd(2000, 2, 29)) == 11016;
    assert DaysBeforeMonth(2026, 3) == 59;
    assert DaysBeforeMonth(2026, 5) == 120;
    assert DayNumber(Ymd(2026, 5, 21)) == 20594;
  }
}
