/**
 * The calendar window of a usage budget: which hour, day, week or month a naive
 * date-time falls in, when windows may reset at a chosen hour, weekday or day of month.
 */
module BudgetWindow {
  import opened Common
  import opened Calendar

  datatype Period = Hour | Day | Week | Month

  /** Reset point of a window. `hour` and `dayOfMonth` are clamped where they are used. */
  datatype Anchors = Anchors(hour: nat, dayOfWeek: int, dayOfMonth: nat)
  {
    predicate Valid() { 0 <= dayOfWeek < 7 }
  }

  const DEFAULT_ANCHORS := Anchors(0, 0, 1)

  /** A calendar date, if the year, month and day name one. */
  function FromYmd(year: int, month: int, day: int): Option<int> {
    if 1 <= month <= 12 && 1 <= day <= MonthLength(year, month)
    then Some(DayNumber(Ymd(year, month, day)))
    else None
  }

  function AtHour(date: int, hour: nat): int {
    date * DAY + Min(hour, 23) * HOUR
  }

  /** The first day of the following month. */
  function NextMonth(year: int, month: int): Ymd {
    if month == 12 then Ymd(year + 1, 1, 1) else Ymd(year, month + 1, 1)
  }

  function PreviousMonth(year: int, month: int): Ymd {
    if month == 1 then Ymd(year - 1, 12, 1) else Ymd(year, month - 1, 1)
  }

  /** The day of the month on which the day before the next month's first falls. */
  function DaysInMonth(year: int, month: int): int {
    var next := NextMonth(year, month);
    match FromYmd(next.year, next.month, 1)
    case None => 28
    case Some(d) => Civil(d - 1).day
  }

  /** The reset date of a month: its reset day, or its last day when it is shorter. */
  function MonthAnchorDate(year: int, month: int, a: Anchors): int {
    var day := Min(Max(a.dayOfMonth, 1), DaysInMonth(year, month));
    FromYmd(year, month, day).OrElse(FromYmd(year, month, 1)).GetOr(0)
  }

  function MonthAnchor(year: int, month: int, a: Anchors): int {
    AtHour(MonthAnchorDate(year, month, a), a.hour)
  }

  function PeriodStart(now: int, period: Period, anchors: Option<Anchors>): int {
    var a := anchors.GetOr(DEFAULT_ANCHORS);
    var date := now / DAY;
    match period
    case Hour => AtHour(date, now % DAY / HOUR)
    case Day =>
      var todayReset := AtHour(date, a.hour);
      if now >= todayReset then todayReset else AtHour(date - 1, a.hour)
    case Week =>
      var daysBack := (WeekdayFromMonday(date) + 7 - a.dayOfWeek) % 7;
      var candidate := AtHour(date - daysBack, a.hour);
      if now >= candidate then candidate else AtHour(date - daysBack - 7, a.hour)
    case Month =>
      var c := Civil(date);
      var thisMonth := MonthAnchor(c.year, c.month, a);
      var previous := PreviousMonth(c.year, c.month);
      if now >= thisMonth then thisMonth else MonthAnchor(previous.year, previous.month, a)
  }

  function PeriodEnd(start: int, period: Period, anchors: Option<Anchors>): int {
    var a := anchors.GetOr(DEFAULT_ANCHORS);
    match period
    case Hour => start + HOUR
    case Day => start + DAY
    case Week => start + 7 * DAY
    case Month =>
      var c := Civil(start / DAY);
      var next := NextMonth(c.year, c.month);
      MonthAnchor(next.year, next.month, a)
  }

  // ----- what a reset is, said without computing one -----

  predicate ValidAnchors(anchors: Option<Anchors>) {
    anchors.Some? ==> anchors.value.Valid()
  }

  /**
   * The dates on which a budget resets: every day, every reset weekday, or the reset day of
   * every month, which in a shorter month is its last day.
   */
  predicate ResetDate(date: int, period: Period, a: Anchors) {
    match period
    case Hour => true
    case Day => true
    case Week => WeekdayFromMonday(date) == a.dayOfWeek
    case Month =>
      var c := Civil(date);
      c.day == Min(Max(a.dayOfMonth, 1), MonthLength(c.year, c.month))
  }

  /** The instants of reset: every full hour, or the reset hour of every reset date. */
  predicate IsReset(t: int, period: Period, anchors: Option<Anchors>) {
    var a := anchors.GetOr(DEFAULT_ANCHORS);
    if period == Hour then t % HOUR == 0
    else t % DAY == Min(a.hour, 23) * HOUR && ResetDate(t / DAY, period, a)
  }

  ghost predicate LatestReset(r: int, now: int, period: Period, anchors: Option<Anchors>) {
    IsReset(r, period, anchors) && r <= now &&
    forall t {:trigger IsReset(t, period, anchors)} :: r < t <= now ==> !IsReset(t, period, anchors)
  }

  ghost predicate NextReset(e: int, r: int, period: Period, anchors: Option<Anchors>) {
    IsReset(e, period, anchors) && r < e &&
    forall t {:trigger IsReset(t, period, anchors)} :: r < t < e ==> !IsReset(t, period, anchors)
  }

  /** Without anchors windows start at midnight, on Mondays, and on the first of the month. */
  lemma DefaultResets(t: int)
    ensures IsReset(t, Hour, None) <==> t % HOUR == 0
    ensures IsReset(t, Day, None) <==> t % DAY == 0
    ensures IsReset(t, Week, None) <==> t % DAY == 0 && WeekdayFromMonday(t / DAY) == 0
    ensures IsReset(t, Month, None) <==> t % DAY == 0 && Civil(t / DAY).day == 1
  {
    hide Civil, WeekdayFromMonday, MonthLength;
    var c := Civil(t / DAY);
    assert 28 <= MonthLength(c.year, c.month) <= 31;
  }

  lemma WholeHours(k: int)
    ensures (k * HOUR) % HOUR == 0
  {
  }

  // ----- from dates to instants -----

  /** The last date whose reset hour has come. */
  function DueDate(now: int, hour: nat): int {
    if now >= AtHour(now / DAY, hour) then now / DAY else now / DAY - 1
  }

  lemma AtHourSplits(date: int, hour: nat)
    ensures AtHour(date, hour) / DAY == date && AtHour(date, hour) % DAY == Min(hour, 23) * HOUR
  {
  }

  lemma SameTimeOfDay(t: int, hour: nat)
    requires t % DAY == Min(hour, 23) * HOUR
    ensures t == AtHour(t / DAY, hour)
  {
  }

  lemma DueDateIsLast(date: int, now: int, hour: nat)
    ensures AtHour(date, hour) <= now <==> date <= DueDate(now, hour)
  {
  }

  lemma AtHourOrders(date: int, other: int, hour: nat)
    ensures AtHour(date, hour) < AtHour(other, hour) <==> date < other
  {
  }

  ghost predicate LatestResetDate(d: int, date: int, period: Period, a: Anchors) {
    ResetDate(d, period, a) && d <= date &&
    forall x {:trigger ResetDate(x, period, a)} :: d < x <= date ==> !ResetDate(x, period, a)
  }

  ghost predicate NextResetDate(e: int, d: int, period: Period, a: Anchors) {
    ResetDate(e, period, a) && d < e &&
    forall x {:trigger ResetDate(x, period, a)} :: d < x < e ==> !ResetDate(x, period, a)
  }

  lemma LiftLatest(d: int, now: int, period: Period, anchors: Option<Anchors>)
    requires period != Hour
    requires var a := anchors.GetOr(DEFAULT_ANCHORS); LatestResetDate(d, DueDate(now, a.hour), period, a)
    ensures LatestReset(AtHour(d, anchors.GetOr(DEFAULT_ANCHORS).hour), now, period, anchors)
  {
    hide ResetDate, AtHour, DueDate;
    var a := anchors.GetOr(DEFAULT_ANCHORS);
    var r := AtHour(d, a.hour);
    AtHourSplits(d, a.hour);
    DueDateIsLast(d, now, a.hour);
    forall t {:trigger IsReset(t, period, anchors)} | r < t <= now
      ensures !IsReset(t, period, anchors)
    {
      if IsReset(t, period, anchors) {
        SameTimeOfDay(t, a.hour);
        DueDateIsLast(t / DAY, now, a.hour);
        AtHourOrders(d, t / DAY, a.hour);
      }
    }
  }

  lemma LiftNext(e: int, start: int, period: Period, anchors: Option<Anchors>)
    requires period != Hour && IsReset(start, period, anchors)
    requires NextResetDate(e, start / DAY, period, anchors.GetOr(DEFAULT_ANCHORS))
    ensures NextReset(AtHour(e, anchors.GetOr(DEFAULT_ANCHORS).hour), start, period, anchors)
  {
    hide ResetDate, AtHour;
    var a := anchors.GetOr(DEFAULT_ANCHORS);
    AtHourSplits(e, a.hour);
    SameTimeOfDay(start, a.hour);
    AtHourOrders(start / DAY, e, a.hour);
    forall t {:trigger IsReset(t, period, anchors)} | start < t < AtHour(e, a.hour)
      ensures !IsReset(t, period, anchors)
    {
      if IsReset(t, period, anchors) {
        SameTimeOfDay(t, a.hour);
        AtHourOrders(start / DAY, t / DAY, a.hour);
        AtHourOrders(t / DAY, e, a.hour);
      }
    }
  }

  // ----- months -----

  /** The month length obtained from the calendar is the one of the textbook table. */
  lemma DaysInMonthIsTable(year: int, month: int)
    requires 1 <= month <= 12
    ensures DaysInMonth(year, month) == MonthLength(year, month)
  {
    hide DayNumber;
    NextMonthStarts(year, month);
    CivilInverts(Ymd(year, month, MonthLength(year, month)));
  }

  /** The anchor of a month is a reset date of that month. */
  lemma AnchorDateResets(year: int, month: int, a: Anchors)
    requires 1 <= month <= 12
    ensures var d := MonthAnchorDate(year, month, a);
            ResetDate(d, Month, a) && Civil(d).year == year && Civil(d).month == month
  {
    hide DayNumber;
    DaysInMonthIsTable(year, month);
    CivilInverts(Ymd(year, month, Min(Max(a.dayOfMonth, 1), MonthLength(year, month))));
  }

  /** It is the only one. */
  lemma OneResetDateAMonth(date: int, a: Anchors)
    requires ResetDate(date, Month, a)
    ensures date == MonthAnchorDate(Civil(date).year, Civil(date).month, a)
  {
    hide DayNumber;
    DaysInMonthIsTable(Civil(date).year, Civil(date).month);
  }

  /** Between a date of one month and a date of the next there are only dates of the two. */
  lemma BetweenMonths(x: int, z: int, y: int, year: int, month: int)
    requires 1 <= month <= 12 && x <= z <= y
    requires Civil(x).year == year && Civil(x).month == month
    requires var next := NextMonth(year, month); Civil(y).year == next.year && Civil(y).month == next.month
    ensures var next := NextMonth(year, month);
            || (Civil(z).year == year && Civil(z).month == month)
            || (Civil(z).year == next.year && Civil(z).month == next.month)
  {
    hide DayNumber, Civil, MonthLength;
    var next := NextMonth(year, month);
    InMonth(x, year, month);
    InMonth(y, next.year, next.month);
    NextMonthStarts(year, month);
    if z <= DayNumber(Ymd(year, month, MonthLength(year, month))) {
      InMonth(z, year, month);
    } else {
      InMonth(z, next.year, next.month);
    }
  }

  /** A date of one month precedes every date of the next. */
  lemma NextMonthIsLater(x: int, y: int, year: int, month: int)
    requires 1 <= month <= 12
    requires Civil(x).year == year && Civil(x).month == month
    requires Civil(y).year == NextMonth(year, month).year && Civil(y).month == NextMonth(year, month).month
    ensures x < y
  {
    hide DayNumber, Civil, MonthLength;
    var next := NextMonth(year, month);
    InMonth(x, year, month);
    InMonth(y, next.year, next.month);
    NextMonthStarts(year, month);
  }

  /** The anchor of a month is followed by that of the next month. */
  lemma AnchorDatesFollow(year: int, month: int, a: Anchors)
    requires 1 <= month <= 12
    ensures var next := NextMonth(year, month);
            NextResetDate(MonthAnchorDate(next.year, next.month, a), MonthAnchorDate(year, month, a), Month, a)
  {
    hide DayNumber, Civil, MonthAnchorDate, ResetDate;
    var next := NextMonth(year, month);
    var d, e := MonthAnchorDate(year, month, a), MonthAnchorDate(next.year, next.month, a);
    AnchorDateResets(year, month, a);
    AnchorDateResets(next.year, next.month, a);
    NextMonthIsLater(d, e, year, month);
    forall x {:trigger ResetDate(x, Month, a)} | d < x < e
      ensures !ResetDate(x, Month, a)
    {
      if ResetDate(x, Month, a) {
        BetweenMonths(d, x, e, year, month);
        OneResetDateAMonth(x, a);
      }
    }
  }

  // ----- the start of a window -----

  /** Stepping back by the difference of weekdays reaches the reset weekday, and none is skipped. */
  lemma WeekdayBack(date: int, a: Anchors)
    requires a.Valid()
    ensures var back := (WeekdayFromMonday(date) + 7 - a.dayOfWeek) % 7;
            forall x {:trigger ResetDate(x, Week, a)} ::
              date - back - 7 <= x <= date ==> (ResetDate(x, Week, a) <==> x == date - back || x == date - back - 7)
  {
  }

  lemma WeekStart(now: int, a: Anchors)
    requires a.Valid()
    ensures exists d :: PeriodStart(now, Week, Some(a)) == AtHour(d, a.hour) &&
                        LatestResetDate(d, DueDate(now, a.hour), Week, a)
  {
    var date := now / DAY;
    var back := (WeekdayFromMonday(date) + 7 - a.dayOfWeek) % 7;
    var due := DueDate(now, a.hour);
    assert due <= date;
    WeekdayBack(date, a);
    DueDateIsLast(date - back, now, a.hour);
    hide ResetDate, DueDate, AtHour, WeekdayFromMonday;
    var d := if date - back <= due then date - back else date - back - 7;
    assert PeriodStart(now, Week, Some(a)) == AtHour(d, a.hour);
    assert LatestResetDate(d, due, Week, a);
  }

  lemma MonthStart(now: int, a: Anchors)
    ensures exists d :: PeriodStart(now, Month, Some(a)) == AtHour(d, a.hour) &&
                        LatestResetDate(d, DueDate(now, a.hour), Month, a)
  {
    hide DayNumber, Civil, MonthAnchorDate, ResetDate;
    var due := DueDate(now, a.hour);
    var c := Civil(now / DAY);
    var p, n := PreviousMonth(c.year, c.month), NextMonth(c.year, c.month);
    var current := MonthAnchorDate(c.year, c.month, a);
    DueDateIsLast(current, now, a.hour);
    AnchorDatesFollow(p.year, p.month, a);
    AnchorDatesFollow(c.year, c.month, a);
    AnchorDateResets(p.year, p.month, a);
    AnchorDateResets(c.year, c.month, a);
    AnchorDateResets(n.year, n.month, a);
    NextMonthIsLater(now / DAY, MonthAnchorDate(n.year, n.month, a), c.year, c.month);
    NextMonthIsLater(MonthAnchorDate(p.year, p.month, a), now / DAY, p.year, p.month);
    var d := if current <= due then current else MonthAnchorDate(p.year, p.month, a);
    assert PeriodStart(now, Month, Some(a)) == AtHour(d, a.hour);
    assert LatestResetDate(d, due, Month, a);
  }

  lemma DayStart(now: int, a: Anchors)
    ensures exists d :: PeriodStart(now, Day, Some(a)) == AtHour(d, a.hour) &&
                        LatestResetDate(d, DueDate(now, a.hour), Day, a)
  {
    var d := DueDate(now, a.hour);
    assert PeriodStart(now, Day, Some(a)) == AtHour(d, a.hour);
    assert LatestResetDate(d, DueDate(now, a.hour), Day, a);
  }

  lemma HourStart(now: int, anchors: Option<Anchors>)
    ensures LatestReset(PeriodStart(now, Hour, anchors), now, Hour, anchors)
  {
    var k := 24 * (now / DAY) + now % DAY / HOUR;
    assert PeriodStart(now, Hour, anchors) == k * HOUR;
    WholeHours(k);
    forall t {:trigger IsReset(t, Hour, anchors)} | k * HOUR < t <= now
      ensures !IsReset(t, Hour, anchors)
    {
      assert k * HOUR <= now < (k + 1) * HOUR;
    }
  }

  /** The computed start of a window is the latest reset that is not in the future. */
  lemma StartIsLatestReset(now: int, period: Period, anchors: Option<Anchors>)
    requires ValidAnchors(anchors)
    ensures LatestReset(PeriodStart(now, period, anchors), now, period, anchors)
  {
    var a := anchors.GetOr(DEFAULT_ANCHORS);
    if period == Hour {
      HourStart(now, anchors);
    } else {
      assert PeriodStart(now, period, anchors) == PeriodStart(now, period, Some(a));
      hide PeriodStart, ResetDate, AtHour, DueDate;
      match period {
        case Hour =>
        case Day => DayStart(now, a);
        case Week => WeekStart(now, a);
        case Month => MonthStart(now, a);
      }
      var d :| PeriodStart(now, period, Some(a)) == AtHour(d, a.hour) &&
               LatestResetDate(d, DueDate(now, a.hour), period, a);
      LiftLatest(d, now, period, anchors);
    }
  }

  // ----- the end of a window -----

  lemma HourEnd(start: int, anchors: Option<Anchors>)
    requires IsReset(start, Hour, anchors)
    ensures NextReset(start + HOUR, start, Hour, anchors)
  {
  }

  lemma DaysLater(start: int, days: int, hour: nat)
    requires start % DAY == Min(hour, 23) * HOUR
    ensures start + days * DAY == AtHour(start / DAY + days, hour)
  {
    SameTimeOfDay(start, hour);
  }

  lemma DayEnd(start: int, anchors: Option<Anchors>)
    requires IsReset(start, Day, anchors)
    ensures NextReset(PeriodEnd(start, Day, anchors), start, Day, anchors)
  {
    DaysLater(start, 1, anchors.GetOr(DEFAULT_ANCHORS).hour);
    assert PeriodEnd(start, Day, anchors) == start + 1 * DAY;
    hide IsReset, AtHour, PeriodEnd;
    LiftNext(start / DAY + 1, start, Day, anchors);
  }

  lemma WeekEnd(start: int, anchors: Option<Anchors>)
    requires IsReset(start, Week, anchors)
    ensures NextReset(PeriodEnd(start, Week, anchors), start, Week, anchors)
  {
    var a := anchors.GetOr(DEFAULT_ANCHORS);
    assert PeriodEnd(start, Week, anchors) == start + 7 * DAY;
    DaysLater(start, 7, a.hour);
    assert ResetDate(start / DAY, Week, a);
    hide IsReset, AtHour, PeriodEnd;
    assert NextResetDate(start / DAY + 7, start / DAY, Week, a);
    LiftNext(start / DAY + 7, start, Week, anchors);
  }

  lemma MonthEnd(start: int, anchors: Option<Anchors>)
    requires IsReset(start, Month, anchors)
    ensures NextReset(PeriodEnd(start, Month, anchors), start, Month, anchors)
  {
    hide DayNumber, MonthAnchorDate, AtHour, ResetDate;
    var a := anchors.GetOr(DEFAULT_ANCHORS);
    var c := Civil(start / DAY);
    var next := NextMonth(c.year, c.month);
    OneResetDateAMonth(start / DAY, a);
    AnchorDatesFollow(c.year, c.month, a);
    LiftNext(MonthAnchorDate(next.year, next.month, a), start, Month, anchors);
  }

  /** From a reset, the computed end of the window is the very next reset. */
  lemma EndIsNextReset(start: int, period: Period, anchors: Option<Anchors>)
    requires ValidAnchors(anchors) && IsReset(start, period, anchors)
    ensures NextReset(PeriodEnd(start, period, anchors), start, period, anchors)
  {
    match period
    case Hour => HourEnd(start, anchors);
    case Day => DayEnd(start, anchors);
    case Week => WeekEnd(start, anchors);
    case Month => MonthEnd(start, anchors);
  }

  /**
   * Windows tile time. Every instant is inside its window; all instants of a window
   * compute the same start; and the window that begins at its end begins exactly there.
   */
  lemma WindowsTile(now: int, period: Period, anchors: Option<Anchors>)
    requires ValidAnchors(anchors)
    ensures var s := PeriodStart(now, period, anchors);
            var e := PeriodEnd(s, period, anchors);
            s <= now < e &&
            (forall t :: s <= t < e ==> PeriodStart(t, period, anchors) == s) &&
            PeriodStart(e, period, anchors) == e
  {
    hide PeriodStart, PeriodEnd, IsReset;
    var s := PeriodStart(now, period, anchors);
    var e := PeriodEnd(s, period, anchors);
    StartIsLatestReset(now, period, anchors);
    EndIsNextReset(s, period, anchors);
    forall t | s <= t < e
      ensures PeriodStart(t, period, anchors) == s
    {
      StartIsLatestReset(t, period, anchors);
    }
    StartIsLatestReset(e, period, anchors);
  }

  lemma ResetsAreOnTheHour(t: int, period: Period, anchors: Option<Anchors>)
    requires IsReset(t, period, anchors)
    ensures t % HOUR == 0
  {
    hide ResetDate;
    if period != Hour {
      var a := anchors.GetOr(DEFAULT_ANCHORS);
      AtHourIsWhole(t / DAY, a.hour);
      SameTimeOfDay(t, a.hour);
      hide AtHour;
    }
  }

  lemma AtHourIsWhole(date: int, hour: nat)
    ensures AtHour(date, hour) % HOUR == 0
  {
    assert AtHour(date, hour) == (24 * date + Min(hour, 23)) * HOUR;
    hide AtHour;
    WholeHours(24 * date + Min(hour, 23));
  }

  /**
   * The window that spike detection compares against, found from one second before the
   * current start, ends exactly where the current window starts.
   */
  lemma PreviousWindowAbuts(now: int, period: Period, anchors: Option<Anchors>)
    requires ValidAnchors(anchors)
    ensures var s := PeriodStart(now, period, anchors);
            var p := PeriodStart(s - SECOND, period, anchors);
            p < s && PeriodEnd(p, period, anchors) == s
  {
    hide PeriodStart, PeriodEnd, IsReset;
    var s := PeriodStart(now, period, anchors);
    var p := PeriodStart(s - SECOND, period, anchors);
    StartIsLatestReset(now, period, anchors);
    StartIsLatestReset(s - SECOND, period, anchors);
    EndIsNextReset(p, period, anchors);
    ResetsAreOnTheHour(s, period, anchors);
    ResetsAreOnTheHour(PeriodEnd(p, period, anchors), period, anchors);
  }
}
