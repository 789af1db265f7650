/**
 * When the keepalive pings, said of the events alone: which configuration, call or outcome
 * came last, and when. No timer is mentioned.
 */
module KeepaliveSchedule {
  import opened Common
  import opened CacheKeepalive

  /** The interval configured last. */
  function IntervalAt(run: seq<Event>, n: nat): Option<nat>
    requires n <= |run|
  {
    if n == 0 then None else if run[n - 1].Configured? then run[n - 1].interval else IntervalAt(run, n - 1)
  }

  /** The model configured last. */
  function ModelAt(run: seq<Event>, n: nat): Option<string>
    requires n <= |run|
  {
    if n == 0 then None else if run[n - 1].Configured? then Some(run[n - 1].model) else ModelAt(run, n - 1)
  }

  /** The event is a call on the configured model, or on any model before there is one. */
  predicate Warms(run: seq<Event>, i: nat)
    requires i < |run|
  {
    run[i].Warmed? && (ModelAt(run, i) == None || ModelAt(run, i) == Some(run[i].model))
  }

  /** When the cache was last warmed, unless it was invalidated since. */
  function WarmedAt(run: seq<Event>, n: nat): Option<int>
    requires n <= |run|
  {
    if n == 0 || run[n - 1].Invalidated? then None
    else if Warms(run, n - 1) then Some(run[n - 1].at)
    else WarmedAt(run, n - 1)
  }

  /** The failures since anything went well or the cache was given up. */
  function FailuresInARow(run: seq<Event>, n: nat): nat
    requires n <= |run|
  {
    if n == 0 || run[n - 1].Invalidated? || run[n - 1].Succeeded? || Warms(run, n - 1) then 0
    else FailuresInARow(run, n - 1) + if run[n - 1].Failed? then 1 else 0
  }

  /** The event decides anew when to ping; configuring the same interval again does not. */
  predicate Decides(run: seq<Event>, i: nat)
    requires i < |run|
  {
    var e := run[i];
    || e.Invalidated? || e.Succeeded? || e.Failed? || Warms(run, i)
    || (e.Configured? && (e.interval.None? || e.interval != IntervalAt(run, i)))
  }

  function Delayed(at: Option<int>, delay: Option<nat>): Option<int> {
    match (at, delay)
    case (Some(t), Some(d)) => Some(t + d)
    case _ => None
  }

  /** When the next ping is due, by the latest event that decides. */
  function DueAt(run: seq<Event>, n: nat): Option<int>
    requires n <= |run|
  {
    if n == 0 then None
    else if !Decides(run, n - 1) then DueAt(run, n - 1)
    else match run[n - 1]
      case Invalidated(_) => None
      case Configured(interval, _, _) => Delayed(WarmedAt(run, n), interval)
      case Failed(at) => Some(at + RetryDelay(Min(FailuresInARow(run, n), MAX_U32)))
      case e => Delayed(Some(e.at), IntervalAt(run, n))
  }

  /** The idle maximum is over. */
  predicate IdleBy(maxIdle: nat, run: seq<Event>, n: nat, now: int)
    requires n <= |run|
  {
    WarmedAt(run, n).Some? && WarmedAt(run, n).value + maxIdle <= now
  }

  // ----- the timer keeps to the schedule -----

  predicate OnSchedule(maxIdle: nat, k: Timer, run: seq<Event>, n: nat)
    requires n <= |run|
  {
    && k.maxIdle == maxIdle && k.interval == IntervalAt(run, n) && k.targetModel == ModelAt(run, n)
    && k.lastActiveAt == WarmedAt(run, n) && k.failureCount == Min(FailuresInARow(run, n), MAX_U32)
    && (k.lastActiveAt.Some? ==> n > 0 && k.lastActiveAt.value <= run[n - 1].at)
    && (k.interval.Some? && k.lastActiveAt.Some? ==> DueAt(run, n).Some?)
    && (k.nextPingAt == DueAt(run, n) || (n > 0 && IdleBy(maxIdle, run, n, run[n - 1].at)))
  }

  lemma OnScheduleNext(maxIdle: nat, k: Timer, run: seq<Event>, n: nat)
    requires n < |run| && OnSchedule(maxIdle, k, run, n)
    requires n > 0 ==> run[n - 1].at <= run[n].at
    ensures OnSchedule(maxIdle, Apply(k, run[n]), run, n + 1)
  {
    hide RetryDelay;
  }

  lemma {:induction false} AlwaysOnSchedule(maxIdle: nat, run: seq<Event>, n: nat)
    requires n <= |run| && InOrder(run)
    ensures OnSchedule(maxIdle, After(maxIdle, run[..n]), run, n)
  {
    if n == 0 {
      assert run[..0] == [];
    } else {
      AlwaysOnSchedule(maxIdle, run, n - 1);
      AfterPrefix(maxIdle, run, n - 1);
      OnScheduleNext(maxIdle, After(maxIdle, run[..n - 1]), run, n - 1);
      hide OnSchedule, Apply, After;
    }
  }

  /**
   * Over every run whose clock does not go back, exactly when a ping is sent: at a kept tick at
   * which one is due by the events so far, and the idle maximum is not over.
   */
  lemma PingIff(maxIdle: nat, run: seq<Event>, n: nat)
    requires n < |run| && InOrder(run)
    ensures PingAt(maxIdle, run, n) <==>
      && run[n].Ticked? && run[n].kept
      && DueAt(run, n).Some? && DueAt(run, n).value <= run[n].at
      && !IdleBy(maxIdle, run, n, run[n].at)
  {
    AlwaysOnSchedule(maxIdle, run, n);
    assert n > 0 ==> run[n - 1].at <= run[n].at;
    hide DueAt, WarmedAt, FailuresInARow, IntervalAt, ModelAt, InOrder, After;
    var k := After(maxIdle, run[..n]);
    assert IdleTooLong(k, run[n].at) <==> IdleBy(maxIdle, run, n, run[n].at);
  }

  // ----- changing the interval, and turning pings off -----

  /** The event at `i` is the latest before `n` that decides. */
  predicate DecidedAt(run: seq<Event>, i: nat, n: nat)
    requires n <= |run|
  {
    i < n && Decides(run, i) && forall j :: i < j < n ==> !Decides(run, j)
  }

  lemma {:induction false} DueSince(run: seq<Event>, i: nat, n: nat)
    requires n <= |run| && DecidedAt(run, i, n)
    ensures DueAt(run, n) == DueAt(run, i + 1) && WarmedAt(run, n) == WarmedAt(run, i + 1)
    ensures IntervalAt(run, n) == IntervalAt(run, i + 1)
  {
    if i + 1 < n {
      DueSince(run, i, n - 1);
      assert !Decides(run, n - 1);
      hide ModelAt, RetryDelay;
    }
  }

  /**
   * After a configuration that changes the interval of a warm cache, and until another event
   * decides, pings are sent at kept ticks from the new interval after the last warm call on,
   * until the idle maximum, and at no others.
   */
  lemma PingAfterChange(maxIdle: nat, run: seq<Event>, c: nat, n: nat)
    requires n < |run| && InOrder(run) && DecidedAt(run, c, n)
    requires run[c].Configured? && run[c].interval.Some? && WarmedAt(run, c).Some?
    ensures var warm := WarmedAt(run, c).value;
            PingAt(maxIdle, run, n) <==>
              && run[n].Ticked? && run[n].kept
              && warm + run[c].interval.value <= run[n].at < warm + maxIdle
  {
    PingIff(maxIdle, run, n);
    DueSince(run, c, n);
    assert WarmedAt(run, c + 1) == WarmedAt(run, c);
    hide PingAt, InOrder, IntervalAt, ModelAt;
  }

  /** Pings were turned off at `c`, and not on again up to `n`. */
  predicate OffSince(run: seq<Event>, c: nat, n: nat)
    requires n <= |run|
  {
    && c < n && run[c].Configured? && run[c].interval.None?
    && forall j :: c < j < n && run[j].Configured? ==> run[j].interval.None?
  }

  lemma {:induction false} OffInterval(run: seq<Event>, c: nat, n: nat)
    requires n <= |run| && OffSince(run, c, n)
    ensures IntervalAt(run, n) == None
  {
    if c + 1 < n { OffInterval(run, c, n - 1); }
  }

  /** The failure at `i` is the latest event that decides, and its delay is over. */
  predicate RetryDue(run: seq<Event>, i: nat, n: nat)
    requires n < |run|
  {
    DecidedAt(run, i, n) && run[i].Failed? &&
    run[i].at + RetryDelay(Min(FailuresInARow(run, i + 1), MAX_U32)) <= run[n].at
  }

  lemma {:induction false} OffDue(run: seq<Event>, c: nat, n: nat) returns (i: nat)
    requires n <= |run| && OffSince(run, c, n)
    ensures DueAt(run, n).Some? ==> c < i && DecidedAt(run, i, n) && run[i].Failed?
  {
    i := n - 1;
    OffInterval(run, c, n);
    if c + 1 < n { OffInterval(run, c, n - 1); }
    if !Decides(run, i) {
      hide ModelAt, RetryDelay, IntervalAt, WarmedAt;
      i := OffDue(run, c, n - 1);
    }
  }

  /**
   * While pings are turned off there is one exactly at a kept tick, within the idle maximum,
   * that comes after the delay of a failed ping reported since.
   */
  lemma PingWhileOffIff(maxIdle: nat, run: seq<Event>, c: nat, n: nat)
    requires n < |run| && InOrder(run) && OffSince(run, c, n)
    ensures PingAt(maxIdle, run, n) <==>
      && run[n].Ticked? && run[n].kept && !IdleBy(maxIdle, run, n, run[n].at)
      && exists i :: c < i < n && RetryDue(run, i, n)
  {
    PingIff(maxIdle, run, n);
    var i := OffDue(run, c, n);
    hide PingAt, InOrder, IdleBy, OffSince;
    if DueAt(run, n).Some? {
      DueSince(run, i, n);
      assert PingAt(maxIdle, run, n) ==> RetryDue(run, i, n);
    }
    if x :| c < x < n && RetryDue(run, x, n) { DueSince(run, x, n); }
  }

  /**
   * Under the outcome protocol, if no ping is awaited when pings are turned off, none is sent
   * until they are turned on again.
   */
  lemma {:induction false} NoPingWhileOff(maxIdle: nat, run: seq<Event>, c: nat, n: nat)
    requires n < |run| && InOrder(run) && OffSince(run, c, n)
    requires OutcomesFollowPings(maxIdle, run) && !Pending(maxIdle, run, c)
    ensures !PingAt(maxIdle, run, n)
  {
    if PingAt(maxIdle, run, n) {
      PingWhileOffIff(maxIdle, run, c, n);
      var i :| c < i < n && RetryDue(run, i, n);
      assert IsOutcome(run[i]) && !run[c].Ticked?;
      assert Pending(maxIdle, run, i);
      hide *;
      var p := AwaitedPing(maxIdle, run, c, i);
      assert OffSince(run, c, p) by { OffUpTo(run, c, n, p); }
      NoPingWhileOff(maxIdle, run, c, p);
    }
  }

  lemma OffUpTo(run: seq<Event>, c: nat, n: nat, p: nat)
    requires c < p <= n <= |run| && OffSince(run, c, n)
    ensures OffSince(run, c, p)
  {
  }

  /** A ping awaited at `i` and not yet at `c` was sent between. */
  lemma {:induction false} AwaitedPing(maxIdle: nat, run: seq<Event>, c: nat, i: nat) returns (p: nat)
    requires c < i <= |run| && !run[c].Ticked? && Pending(maxIdle, run, i) && !Pending(maxIdle, run, c)
    ensures c < p < i && PingAt(maxIdle, run, p)
  {
    p := i - 1;
    if PingAt(maxIdle, run, p) {
      PingIsTick(maxIdle, run, p);
    } else {
      hide PingAt;
      p := AwaitedPing(maxIdle, run, c, i - 1);
    }
  }

  /** If a ping is awaited then, its failure starts the pings again. */
  lemma FailurePingsWhileOff(interval: nat, maxIdle: nat, at: int)
    requires interval + 30 * SECOND <= at < maxIdle
    ensures var run := [Configured(Some(interval), "m", 0), Warmed("m", 0), Ticked(interval, true),
                        Configured(None, "m", interval), Failed(interval), Ticked(at, true)];
            OutcomesFollowPings(maxIdle, run) && OffSince(run, 3, 5) && PingAt(maxIdle, run, 5)
  {
    var run := [Configured(Some(interval), "m", 0), Warmed("m", 0), Ticked(interval, true),
                Configured(None, "m", interval), Failed(interval), Ticked(at, true)];
    assert RetryDelay(1) == 30 * SECOND;
    assert WarmedAt(run, 2) == Some(0);
    assert WarmedAt(run, 4) == Some(0);
    assert FailuresInARow(run, 2) == 0;
    assert FailuresInARow(run, 4) == 0;
    PingAfterWarm(maxIdle, run);
    assert RetryDue(run, 4, 5);
    PingWhileOffIff(maxIdle, run, 3, 5);
    PendingMeans(maxIdle, run, 4);
    hide PingAt, Pending, InOrder;
    assert forall i :: 0 <= i < |run| && IsOutcome(run[i]) ==> i == 4;
  }

  lemma PingAfterWarm(maxIdle: nat, run: seq<Event>)
    requires InOrder(run) && |run| > 2 && run[0].Configured? && run[0].interval.Some?
    requires run[1].Warmed? && run[1].model == run[0].model && run[2].Ticked? && run[2].kept
    requires run[1].at + run[0].interval.value <= run[2].at < run[1].at + maxIdle
    ensures PingAt(maxIdle, run, 2)
  {
    PingIff(maxIdle, run, 2);
    assert IntervalAt(run, 1) == run[0].interval && ModelAt(run, 1) == Some(run[0].model);
    assert WarmedAt(run, 2) == Some(run[1].at);
    hide PingAt, InOrder;
  }
}
