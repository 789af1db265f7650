/**
 * Which clocks keep every instant inside its budget window. Offsets may change by any amount
 * at any time; the exact conditions are about what the clock shows where it shifts.
 */
module ClockShifts {
  import opened Common
  import opened Calendar
  import opened BudgetWindow
  import opened LocalTime

  /** Offsets from UTC are less than a day, which their type guarantees. */
  ghost predicate WithinADay(off: Offsets) {
    forall u {:trigger off(u)} :: -DAY < off(u) < DAY
  }

  /** The latest reset on the clock at `u`, and the next one. */
  function Begin(off: Offsets, u: int, period: Period, anchors: Option<Anchors>): int {
    PeriodStart(Local(off, u), period, anchors)
  }

  function End(off: Offsets, u: int, period: Period, anchors: Option<Anchors>): int {
    PeriodEnd(Begin(off, u, period, anchors), period, anchors)
  }

  ghost predicate Contains(off: Offsets, u: int, period: Period, anchors: Option<Anchors>) {
    WindowStart(off, u, period, anchors) <= u < WindowEnd(off, u, period, anchors)
  }

  ghost predicate ContainsAll(off: Offsets, period: Period, anchors: Option<Anchors>) {
    forall u :: Contains(off, u, period, anchors)
  }

  // ----- what resolution depends on -----

  ghost predicate ShownBy(off: Offsets, naive: int, u: int) {
    exists v :: v <= u && Local(off, v) == naive
  }

  /** A reading resolves to `u` or earlier, said in terms of what the clock shows. */
  ghost predicate ResolvedBy(off: Offsets, naive: int, u: int) {
    || ShownBy(off, naive, u)
    || (!Shows(off, naive) && ShownBy(off, naive + HOUR, u))
    || (!Shows(off, naive) && !Shows(off, naive + HOUR) && naive <= u)
  }

  lemma EarliestBy(off: Offsets, naive: int, u: int)
    requires WithinADay(off)
    ensures Earliest(off, naive).Some? <==> Shows(off, naive)
    ensures Earliest(off, naive).Some? ==> (Earliest(off, naive).value <= u <==> ShownBy(off, naive, u))
  {
    forall v {:trigger Local(off, v)} | v < naive - DAY
      ensures Local(off, v) != naive
    {
      assert off(v) < DAY;
    }
    EarliestExists(off, naive, naive - DAY);
    if Earliest(off, naive).Some? {
      assert IsEarliest(off, naive, Earliest(off, naive).value);
    }
  }

  lemma ResolvesBy(off: Offsets, naive: int, u: int)
    requires WithinADay(off)
    ensures ResolveLocal(off, naive) <= u <==> ResolvedBy(off, naive, u)
  {
    EarliestBy(off, naive, u);
    EarliestBy(off, naive + HOUR, u);
    hide Earliest, WithinADay;
    if ShownBy(off, naive, u) {
      var v :| v <= u && Local(off, v) == naive;
      assert Shows(off, naive);
    }
  }

  /** A reset is passed exactly when the window at `u` is the one it begins, or a later one. */
  lemma ResetSide(off: Offsets, u: int, r: int, period: Period, anchors: Option<Anchors>)
    requires ValidAnchors(anchors) && IsReset(r, period, anchors)
    ensures r <= Local(off, u) <==> r <= Begin(off, u, period, anchors)
    ensures r <= Local(off, u) || End(off, u, period, anchors) <= r
  {
    WindowAt(off, u, period, anchors);
    hide IsReset, PeriodStart, PeriodEnd;
  }

  lemma WindowAt(off: Offsets, u: int, period: Period, anchors: Option<Anchors>)
    requires ValidAnchors(anchors)
    ensures LatestReset(Begin(off, u, period, anchors), Local(off, u), period, anchors)
    ensures NextReset(End(off, u, period, anchors), Begin(off, u, period, anchors), period, anchors)
    ensures Begin(off, u, period, anchors) <= Local(off, u) < End(off, u, period, anchors)
  {
    hide IsReset, PeriodStart, PeriodEnd;
    StartIsLatestReset(Local(off, u), period, anchors);
    EndIsNextReset(Begin(off, u, period, anchors), period, anchors);
    WindowsTile(Local(off, u), period, anchors);
  }

  // ----- every clock -----

  /**
   * Where the clock enters another window, by running on or by a shift in either direction,
   * the new window has begun by then, and the one it leaves has not ended before.
   */
  ghost predicate SoundEntry(off: Offsets, u: int, period: Period, anchors: Option<Anchors>) {
    Begin(off, u, period, anchors) != Begin(off, u - 1, period, anchors) ==>
      && ResolvedBy(off, Begin(off, u, period, anchors), u)
      && !ResolvedBy(off, End(off, u - 1, period, anchors), u - 1)
  }

  lemma EntryContains(off: Offsets, u: int, period: Period, anchors: Option<Anchors>)
    requires WithinADay(off)
    requires Begin(off, u, period, anchors) != Begin(off, u - 1, period, anchors)
    ensures SoundEntry(off, u, period, anchors) <==>
            WindowStart(off, u, period, anchors) <= u && u - 1 < WindowEnd(off, u - 1, period, anchors)
  {
    hide PeriodStart, PeriodEnd, ResolveLocal, ResolvedBy, WithinADay;
    ResolvesBy(off, Begin(off, u, period, anchors), u);
    ResolvesBy(off, End(off, u - 1, period, anchors), u - 1);
  }

  lemma NearWindow(off: Offsets, u: int, period: Period, anchors: Option<Anchors>)
    requires WithinADay(off) && ValidAnchors(anchors)
    ensures Begin(off, u, period, anchors) - DAY < u < End(off, u, period, anchors) + DAY
  {
    WindowAt(off, u, period, anchors);
    assert -DAY < off(u) < DAY;
  }

  lemma SameWindow(off: Offsets, u: int, v: int, period: Period, anchors: Option<Anchors>)
    requires Begin(off, u, period, anchors) == Begin(off, v, period, anchors)
    ensures WindowStart(off, u, period, anchors) == WindowStart(off, v, period, anchors)
    ensures WindowEnd(off, u, period, anchors) == WindowEnd(off, v, period, anchors)
    ensures End(off, u, period, anchors) == End(off, v, period, anchors)
  {
  }

  lemma {:induction false} BegunBy(off: Offsets, u: int, period: Period, anchors: Option<Anchors>)
    requires WithinADay(off) && ValidAnchors(anchors) && forall v :: SoundEntry(off, v, period, anchors)
    ensures WindowStart(off, u, period, anchors) <= u
    decreases u - (Begin(off, u, period, anchors) - DAY)
  {
    hide *;
    NearWindow(off, u, period, anchors);
    if Begin(off, u - 1, period, anchors) == Begin(off, u, period, anchors) {
      SameWindow(off, u - 1, u, period, anchors);
      BegunBy(off, u - 1, period, anchors);
    } else {
      EntryContains(off, u, period, anchors);
    }
  }

  lemma {:induction false} NotEndedBy(off: Offsets, u: int, period: Period, anchors: Option<Anchors>)
    requires WithinADay(off) && ValidAnchors(anchors) && forall v :: SoundEntry(off, v, period, anchors)
    ensures u < WindowEnd(off, u, period, anchors)
    decreases End(off, u, period, anchors) + DAY - u
  {
    hide *;
    NearWindow(off, u, period, anchors);
    if Begin(off, u + 1, period, anchors) == Begin(off, u, period, anchors) {
      SameWindow(off, u + 1, u, period, anchors);
      NotEndedBy(off, u + 1, period, anchors);
    } else {
      EntryContains(off, u + 1, period, anchors);
    }
  }

  /** On every clock: all instants are inside their windows exactly if every entry is sound. */
  lemma ContainsIffSoundEntries(off: Offsets, period: Period, anchors: Option<Anchors>)
    requires WithinADay(off) && ValidAnchors(anchors)
    ensures ContainsAll(off, period, anchors) <==> forall u :: SoundEntry(off, u, period, anchors)
  {
    hide PeriodStart, PeriodEnd, ResolveLocal, ResolvedBy, WithinADay;
    if ContainsAll(off, period, anchors) {
      forall u
        ensures SoundEntry(off, u, period, anchors)
      {
        assert Contains(off, u, period, anchors) && Contains(off, u - 1, period, anchors);
        if Begin(off, u, period, anchors) != Begin(off, u - 1, period, anchors) {
          EntryContains(off, u, period, anchors);
        }
      }
    }
    if forall u :: SoundEntry(off, u, period, anchors) {
      forall u
        ensures Contains(off, u, period, anchors)
      {
        BegunBy(off, u, period, anchors);
        NotEndedBy(off, u, period, anchors);
      }
    }
  }

  // ----- clocks that skip no whole window -----

  /** No shift jumps over a whole window; it may jump into the next one, or back by any amount. */
  ghost predicate SkipsNoWindow(off: Offsets, period: Period, anchors: Option<Anchors>) {
    forall u :: StepSkipsNoWindow(off, u, period, anchors)
  }

  predicate StepSkipsNoWindow(off: Offsets, u: int, period: Period, anchors: Option<Anchors>) {
    Begin(off, u, period, anchors) <= End(off, u - 1, period, anchors)
  }

  /** The reading resolves to the instant from which on, and not before, the clock is at it or past it. */
  ghost predicate FirstReached(off: Offsets, r: int) {
    forall u {:trigger Local(off, u)} :: ResolveLocal(off, r) <= u <==> r <= Local(off, u)
  }

  ghost predicate ResetsFirstReached(off: Offsets, period: Period, anchors: Option<Anchors>) {
    forall r {:trigger IsReset(r, period, anchors)} :: IsReset(r, period, anchors) ==> FirstReached(off, r)
  }

  /** If every reset resolves so, all instants are inside their windows. */
  lemma FirstReachedContains(off: Offsets, period: Period, anchors: Option<Anchors>)
    requires ValidAnchors(anchors) && ResetsFirstReached(off, period, anchors)
    ensures ContainsAll(off, period, anchors)
  {
    hide PeriodStart, PeriodEnd, IsReset, ResolveLocal;
    forall u
      ensures Contains(off, u, period, anchors)
    {
      WindowAt(off, u, period, anchors);
      assert FirstReached(off, Begin(off, u, period, anchors)) && FirstReached(off, End(off, u, period, anchors));
    }
  }

  /** Where the clock comes from before a reset to it or past it, that reset begins the new window and ends the old. */
  lemma Crossing(off: Offsets, u: int, r: int, period: Period, anchors: Option<Anchors>)
    requires ValidAnchors(anchors) && SkipsNoWindow(off, period, anchors) && IsReset(r, period, anchors)
    requires Local(off, u - 1) < r <= Local(off, u)
    ensures Begin(off, u, period, anchors) == r == End(off, u - 1, period, anchors)
  {
    ResetSide(off, u, r, period, anchors);
    ResetSide(off, u - 1, r, period, anchors);
    hide IsReset, Begin, End;
    assert StepSkipsNoWindow(off, u, period, anchors);
  }

  lemma {:induction false} CameFromBefore(off: Offsets, u: int, r: int) returns (v: int)
    requires WithinADay(off) && r <= Local(off, u)
    ensures v <= u && Local(off, v - 1) < r <= Local(off, v)
    decreases u - (r - DAY)
  {
    assert off(u) < DAY;
    hide WithinADay;
    if Local(off, u - 1) < r { v := u; } else { v := CameFromBefore(off, u - 1, r); }
  }

  lemma {:induction false} WillBePast(off: Offsets, u: int, r: int) returns (v: int)
    requires WithinADay(off) && Local(off, u) < r
    ensures u < v && Local(off, v - 1) < r <= Local(off, v)
    decreases r + DAY - u
  {
    assert -DAY < off(u);
    hide WithinADay;
    if r <= Local(off, u + 1) { v := u + 1; } else { v := WillBePast(off, u + 1, r); }
  }

  lemma ContainedResets(off: Offsets, u: int, r: int, period: Period, anchors: Option<Anchors>)
    requires WithinADay(off) && ValidAnchors(anchors) && SkipsNoWindow(off, period, anchors)
    requires ContainsAll(off, period, anchors) && IsReset(r, period, anchors)
    ensures ResolveLocal(off, r) <= u <==> r <= Local(off, u)
  {
    hide PeriodStart, PeriodEnd, IsReset, ResolveLocal, WithinADay, SkipsNoWindow;
    var v;
    if r <= Local(off, u) {
      v := CameFromBefore(off, u, r);
    } else {
      v := WillBePast(off, u, r);
    }
    Crossing(off, v, r, period, anchors);
    assert Contains(off, v, period, anchors) && Contains(off, v - 1, period, anchors);
  }

  /**
   * On every clock that skips no whole window: all instants are inside their windows exactly
   * if every reset resolves to the instant from which on, and not before, it is passed.
   */
  lemma ContainsIffFirstReached(off: Offsets, period: Period, anchors: Option<Anchors>)
    requires WithinADay(off) && ValidAnchors(anchors) && SkipsNoWindow(off, period, anchors)
    ensures ContainsAll(off, period, anchors) <==> ResetsFirstReached(off, period, anchors)
  {
    hide PeriodStart, PeriodEnd, IsReset, ResolveLocal, WithinADay, SkipsNoWindow;
    if ContainsAll(off, period, anchors) {
      forall r {:trigger IsReset(r, period, anchors)} | IsReset(r, period, anchors)
        ensures FirstReached(off, r)
      {
        forall u {:trigger Local(off, u)}
          ensures ResolveLocal(off, r) <= u <==> r <= Local(off, u)
        {
          ContainedResets(off, u, r, period, anchors);
        }
      }
    }
    if ResetsFirstReached(off, period, anchors) {
      FirstReachedContains(off, period, anchors);
    }
  }

  /**
   * The clock enters a window at its reset; or jumps to an hour past a reset that it never
   * shows; or jumps past both and the reset's reading happens to be that instant in UTC.
   */
  ghost predicate SoundArrival(off: Offsets, u: int, r: int) {
    || Local(off, u) == r
    || (!Shows(off, r) && Local(off, u) == r + HOUR)
    || (!Shows(off, r) && !Shows(off, r + HOUR) && u == r)
  }

  /** A shift of the clock that changes the window goes forward and arrives soundly. */
  ghost predicate SoundShift(off: Offsets, u: int, period: Period, anchors: Option<Anchors>) {
    var before, r := Begin(off, u - 1, period, anchors), Begin(off, u, period, anchors);
    off(u) != off(u - 1) && before != r ==> before < r && SoundArrival(off, u, r)
  }

  lemma SoundShiftNeeded(off: Offsets, u: int, period: Period, anchors: Option<Anchors>)
    requires ValidAnchors(anchors) && ResetsFirstReached(off, period, anchors)
    ensures SoundShift(off, u, period, anchors)
  {
    hide PeriodStart, PeriodEnd, IsReset, ResolveLocal;
    var before, r := Begin(off, u - 1, period, anchors), Begin(off, u, period, anchors);
    WindowAt(off, u, period, anchors);
    WindowAt(off, u - 1, period, anchors);
    ResetSide(off, u, before, period, anchors);
    ResetSide(off, u - 1, r, period, anchors);
    assert FirstReached(off, before) && FirstReached(off, r);
    if before < r {
      assert ResolveLocal(off, r) == u;
      ResolvesToFirstIff(off, r, u);
    }
  }

  /** The window never goes back: a shift would have to take it back. */
  lemma WindowStepsOn(off: Offsets, u: int, period: Period, anchors: Option<Anchors>)
    requires ValidAnchors(anchors) && SoundShift(off, u, period, anchors)
    ensures Begin(off, u - 1, period, anchors) <= Begin(off, u, period, anchors)
  {
    hide PeriodStart, PeriodEnd, IsReset;
    WindowAt(off, u - 1, period, anchors);
    ResetSide(off, u, Begin(off, u - 1, period, anchors), period, anchors);
  }

  lemma {:induction false} WindowsGoOn(off: Offsets, u: int, v: int, period: Period, anchors: Option<Anchors>)
    requires ValidAnchors(anchors) && u <= v && forall w :: SoundShift(off, w, period, anchors)
    ensures Begin(off, u, period, anchors) <= Begin(off, v, period, anchors)
    decreases v - u
  {
    hide Begin, SoundShift;
    if u < v {
      WindowsGoOn(off, u, v - 1, period, anchors);
      WindowStepsOn(off, v, period, anchors);
    }
  }

  lemma ReachedOnce(off: Offsets, f: int, r: int, period: Period, anchors: Option<Anchors>)
    requires ValidAnchors(anchors) && IsReset(r, period, anchors) && forall w :: SoundShift(off, w, period, anchors)
    requires Local(off, f - 1) < r <= Local(off, f)
    ensures forall u {:trigger Local(off, u)} :: f <= u <==> r <= Local(off, u)
  {
    hide Begin, SoundShift, IsReset;
    ResetSide(off, f, r, period, anchors);
    ResetSide(off, f - 1, r, period, anchors);
    forall u {:trigger Local(off, u)}
      ensures f <= u <==> r <= Local(off, u)
    {
      ResetSide(off, u, r, period, anchors);
      if f <= u { WindowsGoOn(off, f, u, period, anchors); } else { WindowsGoOn(off, u, f - 1, period, anchors); }
    }
  }

  lemma SoundShiftsSuffice(off: Offsets, r: int, period: Period, anchors: Option<Anchors>)
    requires WithinADay(off) && ValidAnchors(anchors) && SkipsNoWindow(off, period, anchors)
    requires IsReset(r, period, anchors) && forall w :: SoundShift(off, w, period, anchors)
    ensures FirstReached(off, r)
  {
    assert -DAY < off(r + DAY);
    hide PeriodStart, PeriodEnd, IsReset, ResolveLocal, WithinADay, SkipsNoWindow, SoundShift;
    var f := CameFromBefore(off, r + DAY, r);
    ReachedOnce(off, f, r, period, anchors);
    Crossing(off, f, r, period, anchors);
    SoundShiftArrives(off, f, r, period, anchors);
    ResolvesToFirstIff(off, r, f);
    hide Local;
  }

  lemma SoundShiftArrives(off: Offsets, f: int, r: int, period: Period, anchors: Option<Anchors>)
    requires ValidAnchors(anchors) && SoundShift(off, f, period, anchors)
    requires Local(off, f - 1) < r <= Local(off, f) && Begin(off, f, period, anchors) == r
    ensures SoundArrival(off, f, r)
  {
    hide PeriodStart, PeriodEnd, IsReset;
    WindowAt(off, f - 1, period, anchors);
  }

  /**
   * On every clock that skips no whole window: all instants are inside their windows exactly
   * if every shift that changes the window goes forward, to the reset itself, or to one hour
   * past a reset that is never shown, or happens at the reset's own reading in UTC when
   * neither the reset nor the hour after it is ever shown.
   */
  lemma ContainsIffSoundShifts(off: Offsets, period: Period, anchors: Option<Anchors>)
    requires WithinADay(off) && ValidAnchors(anchors) && SkipsNoWindow(off, period, anchors)
    ensures ContainsAll(off, period, anchors) <==> forall u :: SoundShift(off, u, period, anchors)
  {
    hide PeriodStart, PeriodEnd, IsReset, ResolveLocal, WithinADay, SkipsNoWindow, SoundShift, FirstReached;
    ContainsIffFirstReached(off, period, anchors);
    if ResetsFirstReached(off, period, anchors) {
      forall u ensures SoundShift(off, u, period, anchors) { SoundShiftNeeded(off, u, period, anchors); }
    }
    if forall u :: SoundShift(off, u, period, anchors) {
      forall r {:trigger IsReset(r, period, anchors)} | IsReset(r, period, anchors)
        ensures FirstReached(off, r)
      {
        SoundShiftsSuffice(off, r, period, anchors);
      }
    }
  }

  // ----- clocks that lose an instant -----

  /** Two hours forward on a full hour: the reset at 7:00 is skipped, and so is 8:00. */
  lemma TwoHourShiftLosesNow()
    ensures var off: Offsets := u => if u < 2 * HOUR then 5 * HOUR else 7 * HOUR;
            2 * HOUR < WindowStart(off, 2 * HOUR, Day, Some(Anchors(7, 0, 1)))
  {
    var off: Offsets := u => if u < 2 * HOUR then 5 * HOUR else 7 * HOUR;
    var now := 2 * HOUR;
    assert Local(off, now) == 9 * HOUR;
    assert PeriodStart(9 * HOUR, Day, Some(Anchors(7, 0, 1))) == 7 * HOUR;
    assert forall v :: Local(off, v) != 7 * HOUR && Local(off, v) != 8 * HOUR;
    assert Earliest(off, 7 * HOUR) == None && Earliest(off, 7 * HOUR + HOUR) == None;
  }

  /** Half an hour back at 2:15: the hour that ended at 2:00 is shown again. */
  lemma HalfHourBackLosesNow()
    ensures var off: Offsets := u => if u < 9 * HOUR / 4 then 0 else -(HOUR / 2);
            WindowEnd(off, 9 * HOUR / 4, Hour, None) <= 9 * HOUR / 4
  {
    var off: Offsets := u => if u < 9 * HOUR / 4 then 0 else -(HOUR / 2);
    var now := 9 * HOUR / 4;
    assert Local(off, now) == 7 * HOUR / 4;
    assert PeriodStart(7 * HOUR / 4, Hour, None) == HOUR;
    assert IsEarliest(off, 2 * HOUR, 2 * HOUR);
    EarliestIs(off, 2 * HOUR, 2 * HOUR);
  }

  // ----- why windows must not be skipped -----

  /** A clock that jumps from 5:00 to 7:00, five hours ahead of UTC. */
  const JUMP: Offsets := u => if u < 0 then 5 * HOUR else 7 * HOUR

  lemma ShownAt(naive: int, u: int)
    requires (naive < 5 * HOUR && u == naive - 5 * HOUR) || (naive >= 7 * HOUR && u == naive - 7 * HOUR)
    ensures ResolveLocal(JUMP, naive) == u
  {
    assert IsEarliest(JUMP, naive, u);
    EarliestIs(JUMP, naive, u);
  }

  lemma SkippedHour()
    ensures ResolveLocal(JUMP, 5 * HOUR) == 5 * HOUR
  {
    assert forall v :: Local(JUMP, v) != 5 * HOUR && Local(JUMP, v) != 6 * HOUR;
    assert Earliest(JUMP, 5 * HOUR) == None && Earliest(JUMP, 5 * HOUR + HOUR) == None;
  }

  lemma ContainedDespiteJump(u: int)
    ensures Contains(JUMP, u, Hour, None)
  {
    var b := Begin(JUMP, u, Hour, None);
    WindowAt(JUMP, u, Hour, None);
    assert b % HOUR == 0 && End(JUMP, u, Hour, None) == b + HOUR;
    hide PeriodStart, ResolveLocal;
    if u < 0 {
      assert b <= 4 * HOUR;
      ShownAt(b, b - 5 * HOUR);
      if b == 4 * HOUR { SkippedHour(); } else { ShownAt(b + HOUR, b - 4 * HOUR); }
    } else {
      assert 7 * HOUR <= b;
      ShownAt(b, b - 7 * HOUR);
      ShownAt(b + HOUR, b - 6 * HOUR);
    }
  }

  /**
   * A skipped window has no instant that could miss it: here the skipped reset at 5:00
   * resolves five hours late, and all instants are inside their windows all the same.
   */
  lemma SkippedWindowDoesNoHarm()
    ensures WithinADay(JUMP) && ContainsAll(JUMP, Hour, None)
    ensures !ResetsFirstReached(JUMP, Hour, None)
  {
    forall u ensures Contains(JUMP, u, Hour, None) { ContainedDespiteJump(u); }
    SkippedHour();
    assert IsReset(5 * HOUR, Hour, None);
    hide PeriodStart, ResolveLocal, Contains;
    assert 5 * HOUR <= Local(JUMP, 0);
    assert !FirstReached(JUMP, 5 * HOUR);
  }
}
