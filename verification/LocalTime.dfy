/**
 * Budget windows in local time. A clock is given by its offset from UTC at every UTC
 * instant; reading it may skip or repeat local times when the offset shifts.
 */
module LocalTime {
  import opened Common
  import opened Calendar
  import opened BudgetWindow

  type Offsets = int -> int

  /** What the clock shows at a UTC instant. */
  function Local(off: Offsets, u: int): int {
    u + off(u)
  }

  ghost predicate Shows(off: Offsets, naive: int) {
    exists u :: Local(off, u) == naive
  }

  ghost predicate IsEarliest(off: Offsets, naive: int, u: int) {
    Local(off, u) == naive && forall v :: v < u ==> Local(off, v) != naive
  }

  /** The earliest instant at which the clock shows a time, if it ever does. */
  ghost function Earliest(off: Offsets, naive: int): Option<int> {
    if exists u :: IsEarliest(off, naive, u) then
      var u :| IsEarliest(off, naive, u);
      Some(u)
    else None
  }

  /**
   * The instant of a local time: the earlier one when it is shown twice; one hour later on
   * the clock when it is skipped; and the same reading in UTC when that is skipped as well.
   */
  ghost function ResolveLocal(off: Offsets, naive: int): int {
    match Earliest(off, naive)
    case Some(u) => u
    case None => Earliest(off, naive + HOUR).GetOr(naive)
  }

  ghost function WindowStart(off: Offsets, now: int, period: Period, anchors: Option<Anchors>): int {
    ResolveLocal(off, PeriodStart(Local(off, now), period, anchors))
  }

  ghost function WindowEnd(off: Offsets, now: int, period: Period, anchors: Option<Anchors>): int {
    ResolveLocal(off, PeriodEnd(PeriodStart(Local(off, now), period, anchors), period, anchors))
  }

  /** If the offset changes at `u`, it changes by one hour, and the new local time is a full hour. */
  ghost predicate HourlyShiftAt(off: Offsets, u: int) {
    && -DAY < off(u) < DAY
    && (off(u) != off(u - 1) ==>
          (off(u) - off(u - 1) == HOUR || off(u) - off(u - 1) == -HOUR) && Local(off, u) % HOUR == 0)
  }

  ghost predicate HourlyShifts(off: Offsets) {
    forall u :: HourlyShiftAt(off, u)
  }

  /** The full local hours that have passed. */
  function HourShown(off: Offsets, u: int): int {
    Local(off, u) / HOUR
  }

  /** Across any instant the local hour stays, advances by one, or skips one; and it moves on the hour. */
  lemma HourSteps(off: Offsets, u: int)
    requires HourlyShiftAt(off, u)
    ensures HourShown(off, u - 1) <= HourShown(off, u) <= HourShown(off, u - 1) + 2
    ensures HourShown(off, u) != HourShown(off, u - 1) ==> Local(off, u) == HourShown(off, u) * HOUR
  {
    var before := Local(off, u - 1) + 1;
    if off(u) == off(u - 1) {
      HourOfNext(Local(off, u - 1));
    } else {
      var k := HourShown(off, u);
      assert Local(off, u) == k * HOUR;
      if off(u) - off(u - 1) == HOUR {
        assert Local(off, u - 1) == (k - 1) * HOUR - 1;
        HourOf(Local(off, u - 1), k - 2);
      } else {
        assert Local(off, u - 1) == (k + 1) * HOUR - 1;
        HourOf(Local(off, u - 1), k);
      }
    }
  }

  lemma HourOf(t: int, k: int)
    requires k * HOUR <= t < (k + 1) * HOUR
    ensures t / HOUR == k
  {
  }

  lemma HourOfNext(t: int)
    ensures t / HOUR <= (t + 1) / HOUR <= t / HOUR + 1
    ensures (t + 1) / HOUR != t / HOUR ==> t + 1 == (t + 1) / HOUR * HOUR
  {
  }

  /** The local hour never goes back, although the minutes may. */
  lemma {:induction false} HoursIncrease(off: Offsets, u: int, v: int)
    requires HourlyShifts(off) && u <= v
    ensures HourShown(off, u) <= HourShown(off, v)
    decreases v - u
  {
    hide HourShown;
    if u < v {
      HoursIncrease(off, u, v - 1);
      assert HourlyShiftAt(off, v);
      HourSteps(off, v);
    }
  }

  /** The instant from which on the local hour is at least `h`. */
  lemma {:induction false} FirstReaching(off: Offsets, h: int, lo: int, hi: int) returns (u: int)
    requires HourlyShifts(off) && lo < hi && HourShown(off, lo) < h <= HourShown(off, hi)
    ensures HourShown(off, u - 1) < h <= HourShown(off, u)
    decreases hi - lo
  {
    hide HourShown;
    if HourShown(off, hi - 1) < h {
      u := hi;
    } else {
      u := FirstReaching(off, h, lo, hi - 1);
    }
  }

  lemma BoundedOffset(off: Offsets, h: int)
    requires HourlyShifts(off)
    ensures HourShown(off, h * HOUR - DAY) < h <= HourShown(off, h * HOUR + DAY)
  {
    assert HourlyShiftAt(off, h * HOUR - DAY);
    assert HourlyShiftAt(off, h * HOUR + DAY);
  }

  lemma EarliestIs(off: Offsets, naive: int, u: int)
    requires IsEarliest(off, naive, u)
    ensures Earliest(off, naive) == Some(u)
  {
    var e := Earliest(off, naive);
    assert e.Some? && IsEarliest(off, naive, e.value);
    assert Local(off, u) == naive;
    assert Local(off, e.value) == naive;
  }

  /**
   * On a clock with hourly shifts, a full local hour resolves to the instant from which on
   * the clock shows that hour or a later one, whether it is shown once, twice or not at all.
   */
  lemma ResolvesToFirst(off: Offsets, h: int, u: int)
    requires HourlyShifts(off)
    ensures ResolveLocal(off, h * HOUR) <= u <==> h <= HourShown(off, u)
  {
    BoundedOffset(off, h);
    var first := FirstReaching(off, h, h * HOUR - DAY, h * HOUR + DAY);
    ResolvedAt(off, h, first);
    if u < first { HoursIncrease(off, u, first - 1); } else { HoursIncrease(off, first, u); }
  }

  lemma ResolvedAt(off: Offsets, h: int, first: int)
    requires HourlyShifts(off) && HourShown(off, first - 1) < h <= HourShown(off, first)
    ensures ResolveLocal(off, h * HOUR) == first
  {
    assert HourlyShiftAt(off, first);
    HourSteps(off, first);
    var k := HourShown(off, first);
    assert k == h || k == h + 1;
    forall v | v < first
      ensures Local(off, v) < h * HOUR
    {
      HoursIncrease(off, v, first - 1);
      BelowHour(Local(off, v), h);
    }
    assert IsEarliest(off, k * HOUR, first);
    EarliestIs(off, k * HOUR, first);
    if k == h + 1 {
      forall v
        ensures Local(off, v) != h * HOUR
      {
        if first <= v {
          HoursIncrease(off, first, v);
          BelowHour(Local(off, v), h + 1);
        }
      }
      assert Earliest(off, h * HOUR) == None;
      assert k * HOUR == h * HOUR + HOUR;
    }
  }

  lemma BelowHour(t: int, h: int)
    ensures t < h * HOUR <==> t / HOUR < h
  {
  }

  /**
   * Local windows tile time, through skipped and repeated hours: every instant lies in its
   * resolved window, all instants of that window resolve to the same window, and the window
   * of its end starts exactly there.
   */
  lemma LocalWindowsTile(off: Offsets, now: int, period: Period, anchors: Option<Anchors>)
    requires HourlyShifts(off) && ValidAnchors(anchors)
    ensures var s := WindowStart(off, now, period, anchors);
            var e := WindowEnd(off, now, period, anchors);
            s <= now < e &&
            (forall t :: s <= t < e ==>
              WindowStart(off, t, period, anchors) == s && WindowEnd(off, t, period, anchors) == e) &&
            WindowStart(off, e, period, anchors) == e
  {
    hide PeriodStart, PeriodEnd, IsReset, ResolveLocal, HourlyShifts;
    var s := WindowStart(off, now, period, anchors);
    var e := WindowEnd(off, now, period, anchors);
    var ns := PeriodStart(Local(off, now), period, anchors);
    var ne := PeriodEnd(ns, period, anchors);
    WindowsTile(Local(off, now), period, anchors);
    StartIsLatestReset(Local(off, now), period, anchors);
    EndIsNextReset(ns, period, anchors);
    ResolvesReset(off, ns, period, anchors);
    ResolvesReset(off, ne, period, anchors);
    forall t | s <= t < e
      ensures WindowStart(off, t, period, anchors) == s && WindowEnd(off, t, period, anchors) == e
    {
      assert ns <= Local(off, t) < ne;
    }
    var next := PeriodStart(Local(off, e), period, anchors);
    StartIsLatestReset(Local(off, e), period, anchors);
    ResolvesReset(off, next, period, anchors);
    assert ne <= next by {
      assert ne <= Local(off, e);
      assert IsReset(ne, period, anchors);
    }
    NotBefore(off, ne, next, period, anchors);
  }

  /** A reset resolves to the instant from which on the clock shows it or a later time. */
  lemma ResolvesReset(off: Offsets, r: int, period: Period, anchors: Option<Anchors>)
    requires HourlyShifts(off) && IsReset(r, period, anchors)
    ensures forall u {:trigger Local(off, u)} :: ResolveLocal(off, r) <= u <==> r <= Local(off, u)
  {
    ResetsAreOnTheHour(r, period, anchors);
    var h := r / HOUR;
    assert r == h * HOUR;
    forall u {:trigger Local(off, u)}
      ensures ResolveLocal(off, r) <= u <==> r <= Local(off, u)
    {
      ResolvesToFirst(off, h, u);
      BelowHour(Local(off, u), h);
    }
  }

  /** In the second before a full hour begins, the clock runs through the second before a full hour. */
  lemma {:induction false} RunsUpTo(off: Offsets, s: int, c: int, u: int)
    requires HourlyShifts(off) && Local(off, s - 1) == c * HOUR - 1 && s - SECOND <= u < s
    ensures Local(off, u) == c * HOUR - (s - u)
    decreases s - u
  {
    if u < s - 1 {
      RunsUpTo(off, s, c, u + 1);
      assert HourlyShiftAt(off, u + 1);
      NotOnTheHour(c, s - u - 1);
    }
  }

  lemma NotOnTheHour(c: int, d: int)
    requires 0 < d < HOUR
    ensures (c * HOUR - d) % HOUR != 0
  {
    HourOf(c * HOUR - d, c - 1);
  }

  /** Just before the hour changes, a full hour is about to begin. */
  lemma BeforeHour(off: Offsets, s: int) returns (c: int)
    requires HourlyShifts(off) && HourShown(off, s - 1) < HourShown(off, s)
    ensures Local(off, s - 1) == c * HOUR - 1
  {
    assert HourlyShiftAt(off, s);
    HourSteps(off, s);
    var k := HourShown(off, s);
    c := if off(s) == off(s - 1) then k else if off(s) - off(s - 1) == HOUR then k - 1 else k + 1;
  }

  /** A full hour comes after the second before another one only if it is at least that one. */
  lemma NextHour(t: int, c: int, q: int)
    requires t == c * HOUR - SECOND && q % HOUR == 0 && t < q
    ensures c * HOUR <= q
  {
    var k := q / HOUR;
    assert q == k * HOUR;
  }

  /**
   * In local time too, the window found from one second before the current start ends exactly
   * where the current window starts.
   */
  lemma PreviousLocalWindowAbuts(off: Offsets, now: int, period: Period, anchors: Option<Anchors>)
    requires HourlyShifts(off) && ValidAnchors(anchors)
    ensures var s := WindowStart(off, now, period, anchors);
            WindowEnd(off, s - SECOND, period, anchors) == s
  {
    hide PeriodStart, PeriodEnd, IsReset, ResolveLocal, HourlyShifts;
    var s := WindowStart(off, now, period, anchors);
    var ns := PeriodStart(Local(off, now), period, anchors);
    StartIsLatestReset(Local(off, now), period, anchors);
    ResolvesReset(off, ns, period, anchors);
    HourBefore(off, s, ns, period, anchors);
    var c := BeforeHour(off, s);
    var v := s - SECOND;
    RunsUpTo(off, s, c, v);
    var pv := PeriodStart(Local(off, v), period, anchors);
    var q := PeriodEnd(pv, period, anchors);
    WindowsTile(Local(off, v), period, anchors);
    StartIsLatestReset(Local(off, v), period, anchors);
    EndIsNextReset(pv, period, anchors);
    ResetsAreOnTheHour(q, period, anchors);
    NextHour(Local(off, v), c, q);
    ResolvesReset(off, q, period, anchors);
    assert q <= ns by {
      assert Local(off, v) < ns;
      assert IsReset(ns, period, anchors);
    }
    assert Local(off, s - 1) < q <= Local(off, s);
  }

  lemma HourBefore(off: Offsets, s: int, ns: int, period: Period, anchors: Option<Anchors>)
    requires HourlyShifts(off) && IsReset(ns, period, anchors) && ResolveLocal(off, ns) == s
    ensures HourShown(off, s - 1) < HourShown(off, s) && Local(off, s - 1) < ns <= Local(off, s)
  {
    ResolvesReset(off, ns, period, anchors);
    ResetsAreOnTheHour(ns, period, anchors);
    hide IsReset, ResolveLocal, HourlyShifts;
    assert Local(off, s - 1) < ns <= Local(off, s);
    BelowHour(Local(off, s - 1), ns / HOUR);
    BelowHour(Local(off, s), ns / HOUR);
  }

  lemma NotBefore(off: Offsets, r: int, q: int, period: Period, anchors: Option<Anchors>)
    requires HourlyShifts(off) && IsReset(r, period, anchors) && IsReset(q, period, anchors) && r <= q
    ensures ResolveLocal(off, r) <= ResolveLocal(off, q)
  {
    hide IsReset, ResolveLocal, HourlyShifts;
    ResolvesReset(off, r, period, anchors);
    ResolvesReset(off, q, period, anchors);
    var u := ResolveLocal(off, q);
    assert q <= Local(off, u);
  }

  /** A reading that is shown, but not before some instant, has an earliest showing. */
  lemma EarliestExists(off: Offsets, naive: int, first: int)
    requires forall u {:trigger Local(off, u)} :: u < first ==> Local(off, u) != naive
    ensures Earliest(off, naive).Some? <==> Shows(off, naive)
    ensures Earliest(off, naive).Some? ==> IsEarliest(off, naive, Earliest(off, naive).value)
  {
    if Shows(off, naive) {
      var u :| Local(off, u) == naive;
      var w := LeastShowing(off, naive, first, u);
    }
  }

  lemma {:induction false} LeastShowing(off: Offsets, naive: int, first: int, u: int) returns (w: int)
    requires forall v {:trigger Local(off, v)} :: v < first ==> Local(off, v) != naive
    requires Local(off, u) == naive
    ensures IsEarliest(off, naive, w)
    decreases u - first
  {
    if v :| v < u && Local(off, v) == naive {
      w := LeastShowing(off, naive, first, v);
    } else {
      w := u;
    }
  }

  /**
   * On any clock: if from instant `first` on, and not before, the clock shows `naive` or
   * later, then `naive` resolves to `first` exactly when the clock reads `naive` at `first`,
   * or never shows it and reads one hour more, or shows neither and runs on UTC there.
   */
  lemma ResolvesToFirstIff(off: Offsets, naive: int, first: int)
    requires forall u {:trigger Local(off, u)} :: first <= u <==> naive <= Local(off, u)
    ensures ResolveLocal(off, naive) == first <==>
      || Local(off, first) == naive
      || (!Shows(off, naive) && Local(off, first) == naive + HOUR)
      || (!Shows(off, naive) && !Shows(off, naive + HOUR) && first == naive)
  {
    EarliestExists(off, naive, first);
    EarliestExists(off, naive + HOUR, first);
    if Local(off, first) == naive {
      assert IsEarliest(off, naive, first);
      EarliestIs(off, naive, first);
    } else if !Shows(off, naive) && Local(off, first) == naive + HOUR {
      assert IsEarliest(off, naive + HOUR, first);
      EarliestIs(off, naive + HOUR, first);
    }
  }

  /**
   * Half-hour shifts break containment. A clock that jumps from 2:00 to 2:30 resolves the
   * hour beginning at 2:00 to 3:00, half an hour after `now`.
   */
  lemma HalfHourShiftLosesNow()
    ensures var off: Offsets := u => if u < 2 * HOUR then 0 else HOUR / 2;
            var now := 2 * HOUR;
            now < WindowStart(off, now, Hour, None)
  {
    var off: Offsets := u => if u < 2 * HOUR then 0 else HOUR / 2;
    var now := 2 * HOUR;
    assert Local(off, now) == 2 * HOUR + HOUR / 2;
    assert PeriodStart(Local(off, now), Hour, None) == 2 * HOUR;
    assert forall u :: Local(off, u) != 2 * HOUR;
    assert Earliest(off, 2 * HOUR) == None;
    assert IsEarliest(off, 3 * HOUR, 2 * HOUR + HOUR / 2);
    EarliestIs(off, 3 * HOUR, 2 * HOUR + HOUR / 2);
  }
}
