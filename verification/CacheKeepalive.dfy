/**
 * The cache keepalive: a timer that pings a model to keep its prompt cache warm while the
 * user is away, until a maximum idle time has passed.
 */
module CacheKeepalive {
  import opened Common

  const SECOND: int := 1_000_000_000
  const MAX_U32: nat := 0xFFFF_FFFF

  datatype Action = NoAction | Ping

  /** Backoff after a failed ping: 30 s, doubling five times, at most 15 minutes. */
  function RetryDelay(failureCount: nat): (d: int)
    ensures 30 * SECOND <= d <= 900 * SECOND
  {
    var exponent := Min(Max(failureCount - 1, 0), 5);
    Min(30 * Pow2(exponent), 15 * 60) * SECOND
  }

  /** Each further failure doubles the delay until the cap, and no failure shortens it. */
  lemma RetryDelayDoubles(failureCount: nat, more: nat)
    requires failureCount <= more
    ensures failureCount <= 1 ==> RetryDelay(failureCount) == 30 * SECOND
    ensures failureCount >= 1 ==> RetryDelay(failureCount + 1) == Min(2 * RetryDelay(failureCount), 900 * SECOND)
    ensures RetryDelay(failureCount) <= RetryDelay(more)
    ensures failureCount >= 6 ==> RetryDelay(failureCount) == 900 * SECOND
  {
    assert Pow2(1) == 2 && Pow2(2) == 4 && Pow2(3) == 8 && Pow2(4) == 16 && Pow2(5) == 32;
  }

  // ----- the keepalive as a value -----

  datatype Timer = Timer(
    interval: Option<nat>,
    targetModel: Option<string>,
    maxIdle: nat,
    nextPingAt: Option<int>,
    lastActiveAt: Option<int>,
    failureCount: nat)

  function New(maxIdle: nat): Timer {
    Timer(None, None, maxIdle, None, None, 0)
  }

  function Later(at: Option<int>, delay: Option<nat>): Option<int> {
    if at.Some? && delay.Some? then Some(at.value + delay.value) else None
  }

  function Configure(k: Timer, interval: Option<nat>, model: string): Timer {
    var k' := k.(targetModel := Some(model), interval := interval);
    if interval.None? then k'.(nextPingAt := None)
    else if k.nextPingAt.None? || k.interval != interval then k'.(nextPingAt := Later(k.lastActiveAt, interval))
    else k'
  }

  /** A call warms the cache we keep if it ran on the model we keep, or if none is chosen yet. */
  predicate Accepts(k: Timer, model: string) {
    k.targetModel.None? || k.targetModel.value == model
  }

  function CacheWarmed(k: Timer, model: string, now: int): Timer {
    if !Accepts(k, model) then k
    else k.(lastActiveAt := Some(now), failureCount := 0, nextPingAt := Later(Some(now), k.interval))
  }

  function PingSucceeded(k: Timer, now: int): Timer {
    k.(failureCount := 0, nextPingAt := Later(Some(now), k.interval))
  }

  function PingFailed(k: Timer, now: int): Timer {
    var failures := Min(k.failureCount + 1, MAX_U32);
    k.(failureCount := failures, nextPingAt := Some(now + RetryDelay(failures)))
  }

  function CacheInvalidated(k: Timer): Timer {
    k.(nextPingAt := None, lastActiveAt := None, failureCount := 0)
  }

  predicate Due(k: Timer, now: int) {
    k.nextPingAt.Some? && k.nextPingAt.value <= now
  }

  predicate IdleTooLong(k: Timer, now: int) {
    k.lastActiveAt.Some? && Max(now - k.lastActiveAt.value, 0) >= k.maxIdle
  }

  function AtTick(k: Timer, now: int): (Timer, Action) {
    if !Due(k, now) then (k, NoAction)
    else if IdleTooLong(k, now) then (k.(nextPingAt := None), NoAction)
    else (k, Ping)
  }

  // ----- the keepalive itself -----

  class CacheKeepalive {
    var interval: Option<nat>
    var targetModel: Option<string>
    const maxIdle: nat
    var nextPingAt: Option<int>
    var lastActiveAt: Option<int>
    var failureCount: nat

    function Model(): Timer
      reads this
    {
      Timer(interval, targetModel, maxIdle, nextPingAt, lastActiveAt, failureCount)
    }

    constructor (maxIdle: nat)
      ensures Model() == New(maxIdle)
    {
      this.maxIdle := maxIdle;
      interval, targetModel, nextPingAt, lastActiveAt, failureCount := None, None, None, None, 0;
    }

    method SetInterval(newInterval: Option<nat>, model: string)
      modifies this
      ensures Model() == Configure(old(Model()), newInterval, model)
    {
      if targetModel != Some(model) {
        targetModel := Some(model);
      }
      var changed := interval != newInterval;
      interval := newInterval;
      match newInterval {
        case None => nextPingAt := None;
        case Some(iv) =>
          if nextPingAt.None? || changed {
            nextPingAt := if lastActiveAt.Some? then Some(lastActiveAt.value + iv) else None;
          }
      }
    }

    method OnCacheWarmed(model: string, now: int)
      modifies this
      ensures Model() == CacheWarmed(old(Model()), model, now)
    {
      if targetModel.Some? && targetModel.value != model {
        return;
      }
      lastActiveAt := Some(now);
      failureCount := 0;
      nextPingAt := if interval.Some? then Some(now + interval.value) else None;
    }

    method OnPingSucceeded(now: int)
      modifies this
      ensures Model() == PingSucceeded(old(Model()), now)
    {
      failureCount := 0;
      nextPingAt := if interval.Some? then Some(now + interval.value) else None;
    }

    method OnPingFailed(now: int)
      modifies this
      ensures Model() == PingFailed(old(Model()), now)
    {
      failureCount := Min(failureCount + 1, MAX_U32);
      nextPingAt := Some(now + RetryDelay(failureCount));
    }

    method OnCacheInvalidated()
      modifies this
      ensures Model() == CacheInvalidated(old(Model()))
    {
      nextPingAt := None;
      lastActiveAt := None;
      failureCount := 0;
    }

    method Tick(now: int) returns (action: Action)
      modifies this
      ensures (Model(), action) == AtTick(old(Model()), now)
    {
      if nextPingAt.None? {
        return NoAction;
      }
      if now < nextPingAt.value {
        return NoAction;
      }
      if lastActiveAt.Some? {
        if Max(now - lastActiveAt.value, 0) >= maxIdle {
          nextPingAt := None;
          return NoAction;
        }
      }
      return Ping;
    }
  }

  // ----- runs -----

  datatype Event =
    | Configured(interval: Option<nat>, model: string, at: int)
    | Warmed(model: string, at: int)
    | Invalidated(at: int)
    /** A tick; `kept` is false if its decision is thrown away and taken anew by a later tick. */
    | Ticked(at: int, kept: bool)
    | Succeeded(at: int)
    | Failed(at: int)

  function Apply(k: Timer, e: Event): Timer {
    match e
    case Configured(interval, model, _) => Configure(k, interval, model)
    case Warmed(model, at) => CacheWarmed(k, model, at)
    case Invalidated(_) => CacheInvalidated(k)
    case Ticked(at, _) => AtTick(k, at).0
    case Succeeded(at) => PingSucceeded(k, at)
    case Failed(at) => PingFailed(k, at)
  }

  /** Does the event send a ping? */
  predicate Pings(k: Timer, e: Event) {
    e.Ticked? && e.kept && AtTick(k, e.at).1 == Ping
  }

  predicate IsOutcome(e: Event) {
    e.Succeeded? || e.Failed?
  }

  predicate Accepted(k: Timer, e: Event) {
    e.Warmed? && Accepts(k, e.model)
  }

  function After(maxIdle: nat, run: seq<Event>): Timer {
    if run == [] then New(maxIdle) else Apply(After(maxIdle, run[..|run| - 1]), run[|run| - 1])
  }

  /** Did the event at `i` send a ping? */
  predicate PingAt(maxIdle: nat, run: seq<Event>, i: nat)
    requires i < |run|
  {
    Pings(After(maxIdle, run[..i]), run[i])
  }

  /** Was the event at `i` a call that warmed the kept cache? */
  predicate WarmAt(maxIdle: nat, run: seq<Event>, i: nat)
    requires i < |run|
  {
    Accepted(After(maxIdle, run[..i]), run[i])
  }

  /** The clock does not go back. */
  predicate InOrder(run: seq<Event>) {
    forall i, j :: 0 <= i < j < |run| ==> run[i].at <= run[j].at
  }

  /** Since the last ping before `n` there was neither an outcome nor an invalidation. */
  predicate Pending(maxIdle: nat, run: seq<Event>, n: nat)
    requires n <= |run|
  {
    n > 0 && (PingAt(maxIdle, run, n - 1) ||
              (Pending(maxIdle, run, n - 1) && !IsOutcome(run[n - 1]) && !run[n - 1].Invalidated?))
  }

  /** The caller's protocol: an outcome belongs to an earlier ping, and no invalidation comes between the two. */
  predicate OutcomesFollowPings(maxIdle: nat, run: seq<Event>) {
    forall i :: 0 <= i < |run| && IsOutcome(run[i]) ==> Pending(maxIdle, run, i)
  }

  /** No ping is sent while the outcome of another is awaited. */
  predicate OnePingAtATime(maxIdle: nat, run: seq<Event>) {
    forall i :: 0 <= i < |run| && PingAt(maxIdle, run, i) ==> !Pending(maxIdle, run, i)
  }

  /** A ping is pending exactly if some earlier event sent one and nothing answered or voided it. */
  lemma {:induction false} PendingMeans(maxIdle: nat, run: seq<Event>, n: nat)
    requires n <= |run|
    ensures Pending(maxIdle, run, n) <==>
            exists p :: 0 <= p < n && PingAt(maxIdle, run, p) &&
              forall j :: p < j < n ==> !IsOutcome(run[j]) && !run[j].Invalidated?
  {
    hide PingAt;
    if n > 0 {
      PendingMeans(maxIdle, run, n - 1);
      if p :| 0 <= p < n && PingAt(maxIdle, run, p) &&
              forall j :: p < j < n ==> !IsOutcome(run[j]) && !run[j].Invalidated? {
        assert p < n - 1 ==> !IsOutcome(run[n - 1]) && !run[n - 1].Invalidated?;
      }
    }
  }

  /** Every configuration gives the same interval. */
  predicate FixedInterval(run: seq<Event>, interval: nat) {
    forall i :: 0 <= i < |run| && run[i].Configured? ==> run[i].interval == Some(interval)
  }

  /** The latest event before `n` that warmed the cache, unless it was invalidated since. */
  function LastWarm(maxIdle: nat, run: seq<Event>, n: nat): (w: Option<nat>)
    requires n <= |run|
    ensures w.Some? ==> w.value < n
  {
    if n == 0 || run[n - 1].Invalidated? then None
    else if WarmAt(maxIdle, run, n - 1) then Some(n - 1)
    else LastWarm(maxIdle, run, n - 1)
  }

  /** The number of pings from `from` up to `n`. */
  function CountPings(maxIdle: nat, run: seq<Event>, from: nat, n: nat): nat
    requires from <= n <= |run|
  {
    if from == n then 0
    else CountPings(maxIdle, run, from, n - 1) + if PingAt(maxIdle, run, n - 1) then 1 else 0
  }

  lemma AfterPrefix(maxIdle: nat, run: seq<Event>, n: nat)
    requires n < |run|
    ensures After(maxIdle, run[..n + 1]) == Apply(After(maxIdle, run[..n]), run[n])
  {
    assert run[..n + 1][..n] == run[..n];
  }

  /** The idle clock is the time of the last warm call since the last invalidation. */
  lemma {:induction false} IdleClock(maxIdle: nat, run: seq<Event>, n: nat)
    requires n <= |run|
    ensures var w := LastWarm(maxIdle, run, n);
            var k := After(maxIdle, run[..n]);
            k.maxIdle == maxIdle && k.lastActiveAt == if w.Some? then Some(run[w.value].at) else None
  {
    if n > 0 {
      AfterPrefix(maxIdle, run, n - 1);
      IdleClock(maxIdle, run, n - 1);
    }
  }

  /**
   * In every run whatsoever, a ping comes less than the idle maximum after the last call
   * that warmed the cache, if there was one since the last invalidation.
   */
  lemma NoPingPastMaxIdle(maxIdle: nat, run: seq<Event>, n: nat)
    requires n < |run| && InOrder(run) && PingAt(maxIdle, run, n)
    ensures var w := LastWarm(maxIdle, run, n); w.Some? ==> run[n].at - run[w.value].at < maxIdle
  {
    IdleClock(maxIdle, run, n);
  }

  // ----- timers on a cold cache -----

  /** The event sets a timer whether or not the cache is warm. */
  predicate Arms(k: Timer, e: Event) {
    e.Failed? || (e.Succeeded? && k.interval.Some?)
  }

  /** The event clears the timer of a cold cache. */
  predicate Disarms(k: Timer, e: Event) {
    || e.Invalidated?
    || (e.Succeeded? && k.interval.None?)
    || (e.Configured? && (e.interval.None? || e.interval != k.interval))
  }

  predicate ArmedSince(maxIdle: nat, run: seq<Event>, i: nat, n: nat)
    requires n <= |run|
  {
    && i < n && Arms(After(maxIdle, run[..i]), run[i])
    && forall j :: i < j < n ==> !Disarms(After(maxIdle, run[..j]), run[j])
  }

  ghost predicate Armed(maxIdle: nat, run: seq<Event>, n: nat)
    requires n <= |run|
  {
    exists i: nat :: ArmedSince(maxIdle, run, i, n)
  }

  lemma ColdStep(k: Timer, e: Event)
    requires Apply(k, e).lastActiveAt.None? && (e.Invalidated? || k.lastActiveAt.None?)
    ensures Apply(k, e).nextPingAt.Some? <==> Arms(k, e) || (k.nextPingAt.Some? && !Disarms(k, e))
  {
  }

  lemma ArmedNext(maxIdle: nat, run: seq<Event>, n: nat)
    requires 0 < n <= |run|
    ensures var k, e := After(maxIdle, run[..n - 1]), run[n - 1];
            Armed(maxIdle, run, n) <==> Arms(k, e) || (Armed(maxIdle, run, n - 1) && !Disarms(k, e))
  {
    hide Arms, Disarms, After;
    var k, e := After(maxIdle, run[..n - 1]), run[n - 1];
    if Arms(k, e) { assert ArmedSince(maxIdle, run, n - 1, n); }
    if Armed(maxIdle, run, n - 1) && !Disarms(k, e) {
      var i: nat :| ArmedSince(maxIdle, run, i, n - 1);
      assert ArmedSince(maxIdle, run, i, n);
    }
    if Armed(maxIdle, run, n) {
      var i: nat :| ArmedSince(maxIdle, run, i, n);
      assert i < n - 1 ==> ArmedSince(maxIdle, run, i, n - 1);
    }
  }

  /**
   * A cold cache has a timer exactly if an outcome that sets one was reported and nothing
   * that clears it came after. Invalidation clears it, so the outcome is one reported since.
   */
  lemma {:induction false} ColdTimerIff(maxIdle: nat, run: seq<Event>, n: nat)
    requires n <= |run| && LastWarm(maxIdle, run, n).None?
    ensures After(maxIdle, run[..n]).nextPingAt.Some? <==> Armed(maxIdle, run, n)
  {
    if n == 0 {
      assert run[..0] == [];
    } else {
      hide *;
      AfterPrefix(maxIdle, run, n - 1);
      ColdClocks(maxIdle, run, n);
      ArmedNext(maxIdle, run, n);
      var k, e := After(maxIdle, run[..n - 1]), run[n - 1];
      if e.Invalidated? {
        InvalidationClears(k, e);
      } else {
        ColdTimerIff(maxIdle, run, n - 1);
        ColdStep(k, e);
      }
    }
  }

  /** A cold cache was cold before, or is invalidated just now; it has no idle clock. */
  lemma ColdClocks(maxIdle: nat, run: seq<Event>, n: nat)
    requires 0 < n <= |run| && LastWarm(maxIdle, run, n).None?
    ensures After(maxIdle, run[..n]).lastActiveAt.None?
    ensures !run[n - 1].Invalidated? ==>
      LastWarm(maxIdle, run, n - 1).None? && After(maxIdle, run[..n - 1]).lastActiveAt.None?
  {
    IdleClock(maxIdle, run, n - 1);
    IdleClock(maxIdle, run, n);
    hide After;
  }

  lemma InvalidationClears(k: Timer, e: Event)
    requires e.Invalidated?
    ensures Apply(k, e).nextPingAt.None? && !Arms(k, e) && Disarms(k, e)
  {
  }

  /** Exactly when a cold cache is pinged: at a kept tick, when due, after such an outcome. */
  lemma ColdPingIff(maxIdle: nat, run: seq<Event>, n: nat)
    requires n < |run| && LastWarm(maxIdle, run, n).None?
    ensures PingAt(maxIdle, run, n) <==>
            && run[n].Ticked? && run[n].kept && Armed(maxIdle, run, n)
            && After(maxIdle, run[..n]).nextPingAt.GetOr(0) <= run[n].at
  {
    ColdTimerIff(maxIdle, run, n);
    IdleClock(maxIdle, run, n);
    hide After, Armed, LastWarm;
  }

  lemma {:induction false} WarmUnlessInvalidated(maxIdle: nat, run: seq<Event>, i: nat, n: nat)
    requires i <= n <= |run| && forall j :: i <= j < n ==> !run[j].Invalidated?
    requires LastWarm(maxIdle, run, i).Some?
    ensures LastWarm(maxIdle, run, n).Some?
  {
    if i < n { WarmUnlessInvalidated(maxIdle, run, i, n - 1); }
  }

  lemma {:induction false} NotInvalidatedSince(maxIdle: nat, run: seq<Event>, i: nat, n: nat)
    requires n <= |run| && ArmedSince(maxIdle, run, i, n)
    ensures IsOutcome(run[i]) && forall j :: i <= j < n ==> !run[j].Invalidated?
  {
    hide After;
    forall j | i <= j < n ensures !run[j].Invalidated? { assert j > i ==> !Disarms(After(maxIdle, run[..j]), run[j]); }
  }

  /**
   * The caller's protocol keeps the keepalive off a cold cache: if no invalidation comes
   * between a ping and its outcome, whatever else does, then no ping occurs before the first
   * warm call, or between an invalidation and the next warm call.
   */
  lemma {:induction false} NoPingOnColdCache(maxIdle: nat, run: seq<Event>, n: nat)
    requires n < |run| && OutcomesFollowPings(maxIdle, run) && PingAt(maxIdle, run, n)
    ensures LastWarm(maxIdle, run, n).Some?
  {
    if LastWarm(maxIdle, run, n).None? {
      ColdPingIff(maxIdle, run, n);
      var p := ArmingPing(maxIdle, run, n);
      NoPingOnColdCache(maxIdle, run, p);
      WarmUnlessInvalidated(maxIdle, run, p, n);
    }
  }

  /** Under the protocol, behind every timer set by an outcome there is a ping, and no invalidation since. */
  lemma ArmingPing(maxIdle: nat, run: seq<Event>, n: nat) returns (p: nat)
    requires n < |run| && OutcomesFollowPings(maxIdle, run) && Armed(maxIdle, run, n)
    ensures p < n && PingAt(maxIdle, run, p) && forall j :: p <= j < n ==> !run[j].Invalidated?
  {
    var i: nat :| ArmedSince(maxIdle, run, i, n);
    NotInvalidatedSince(maxIdle, run, i, n);
    hide PingAt, ArmedSince, Pending;
    PendingMeans(maxIdle, run, i);
    p :| 0 <= p < i && PingAt(maxIdle, run, p) && forall j :: p < j < i ==> !IsOutcome(run[j]) && !run[j].Invalidated?;
    PingIsTick(maxIdle, run, p);
  }

  lemma PingIsTick(maxIdle: nat, run: seq<Event>, p: nat)
    requires p < |run| && PingAt(maxIdle, run, p)
    ensures run[p].Ticked?
  {
  }

  /**
   * The protocol is needed: an invalidation between a ping and its outcome is followed by a
   * timer that nothing stops, not even the idle maximum.
   */
  lemma OutcomeAfterInvalidationPings(interval: nat, maxIdle: nat, at: int)
    requires 0 < interval < maxIdle && 2 * interval <= at
    ensures var run := [Configured(Some(interval), "m", 0), Warmed("m", 0), Ticked(interval, true),
                        Invalidated(interval), Succeeded(interval), Ticked(at, true)];
            PingAt(maxIdle, run, 5) && LastWarm(maxIdle, run, 5).None?
  {
    var run := [Configured(Some(interval), "m", 0), Warmed("m", 0), Ticked(interval, true), Invalidated(interval),
                Succeeded(interval), Ticked(at, true)];
    assert run[..0] == [];
    AfterPrefix(maxIdle, run, 0);
    AfterPrefix(maxIdle, run, 1);
    AfterPrefix(maxIdle, run, 2);
    AfterPrefix(maxIdle, run, 3);
    AfterPrefix(maxIdle, run, 4);
    assert run[..1][..0] == [];
    assert LastWarm(maxIdle, run, 4).None?;
  }

  // ----- how many pings -----

  /** Time between pings is at least this. */
  function Spacing(interval: nat): nat {
    Min(interval, 30 * SECOND)
  }

  /**
   * What holds between events at a fixed interval: `warm` is when the cache was last warmed,
   * `pings` how many pings were sent since, `pending` whether the outcome of one is awaited.
   */
  predicate Paced(k: Timer, warm: Option<int>, pings: nat, pending: bool, now: int, interval: nat) {
    && k.lastActiveAt == warm
    && (k.interval.Some? ==> k.interval.value == interval)
    && (warm.None? ==> k.nextPingAt.None? && !pending)
    && (warm.Some? ==>
          && warm.value <= now
          && (k.interval.None? ==> k.nextPingAt.None? && pings == 0 && !pending)
          && (pending ==> warm.value + pings * Spacing(interval) <= now)
          && (!pending && k.interval.Some? && now - warm.value < k.maxIdle ==>
                k.nextPingAt.Some? && warm.value + (pings + 1) * Spacing(interval) <= k.nextPingAt.value))
  }

  function StillPending(k: Timer, pending: bool, e: Event): bool {
    Pings(k, e) || (pending && !IsOutcome(e) && !e.Invalidated?)
  }

  lemma PacedStep(k: Timer, warm: Option<int>, pings: nat, pending: bool, now: int, interval: nat, e: Event)
    requires Paced(k, warm, pings, pending, now, interval) && now <= e.at
    requires IsOutcome(e) ==> pending
    requires Pings(k, e) ==> !pending
    requires e.Configured? ==> e.interval == Some(interval)
    ensures var anew := e.Invalidated? || Accepted(k, e);
            var warm' := if e.Invalidated? then None else if Accepted(k, e) then Some(e.at) else warm;
            var pings' := if anew then 0 else pings + if Pings(k, e) then 1 else 0;
            Paced(Apply(k, e), warm', pings', StillPending(k, pending, e), e.at, interval)
    ensures Pings(k, e) ==> warm.Some? && warm.value + (pings + 1) * Spacing(interval) <= e.at < warm.value + k.maxIdle
  {
    hide RetryDelay;
    Distribute(pings, Spacing(interval));
  }

  lemma Distribute(n: nat, s: nat)
    ensures (n + 1) * s == n * s + s
  {
  }

  function WarmTime(maxIdle: nat, run: seq<Event>, n: nat): Option<int>
    requires n <= |run|
  {
    var w := LastWarm(maxIdle, run, n);
    if w.Some? then Some(run[w.value].at) else None
  }

  function PingsSince(maxIdle: nat, run: seq<Event>, n: nat): nat
    requires n <= |run|
  {
    var w := LastWarm(maxIdle, run, n);
    if w.Some? then CountPings(maxIdle, run, w.value, n) else 0
  }

  /** Time, warmth, pings and pending ping after the first `n` events. */
  predicate PacedAfter(maxIdle: nat, run: seq<Event>, n: nat, interval: nat)
    requires n <= |run|
  {
    Paced(After(maxIdle, run[..n]), WarmTime(maxIdle, run, n), PingsSince(maxIdle, run, n),
          Pending(maxIdle, run, n), Clock(run, n), interval)
  }

  /** The time of the last of `n` events, or before any event some time that is not later. */
  function Clock(run: seq<Event>, n: nat): int
    requires n <= |run|
  {
    if n > 0 then run[n - 1].at else if run != [] then run[0].at else 0
  }

  lemma {:induction false} PacedThroughout(maxIdle: nat, run: seq<Event>, n: nat, interval: nat)
    requires n <= |run| && InOrder(run) && FixedInterval(run, interval)
    requires OutcomesFollowPings(maxIdle, run) && OnePingAtATime(maxIdle, run)
    ensures PacedAfter(maxIdle, run, n, interval)
  {
    hide Paced, Apply, Pings, Accepted;
    if n == 0 {
      assert run[..0] == [];
      PacedNew(maxIdle, Clock(run, 0), interval);
    } else {
      hide After, WarmTime, PingsSince;
      PacedThroughout(maxIdle, run, n - 1, interval);
      AfterPrefix(maxIdle, run, n - 1);
      PacedStep(After(maxIdle, run[..n - 1]), WarmTime(maxIdle, run, n - 1), PingsSince(maxIdle, run, n - 1),
                Pending(maxIdle, run, n - 1), Clock(run, n - 1), interval, run[n - 1]);
      CountStep(maxIdle, run, n);
    }
  }

  lemma PacedNew(maxIdle: nat, now: int, interval: nat)
    ensures Paced(New(maxIdle), None, 0, false, now, interval)
  {
  }

  lemma CountOnePing(maxIdle: nat, run: seq<Event>, from: nat, n: nat)
    requires from <= n < |run| && PingAt(maxIdle, run, n)
    ensures CountPings(maxIdle, run, from, n + 1) == CountPings(maxIdle, run, from, n) + 1
  {
  }

  /** How warmth and the count of pings move with one event. */
  lemma CountStep(maxIdle: nat, run: seq<Event>, n: nat)
    requires 0 < n <= |run|
    ensures var k, e := After(maxIdle, run[..n - 1]), run[n - 1];
            var warm := WarmTime(maxIdle, run, n - 1);
            && WarmTime(maxIdle, run, n) ==
                 (if e.Invalidated? then None else if Accepted(k, e) then Some(e.at) else warm)
            && (Accepted(k, e) || e.Invalidated? ==> PingsSince(maxIdle, run, n) == 0)
            && (warm.Some? && !Accepted(k, e) && !e.Invalidated? ==>
                  PingsSince(maxIdle, run, n) == PingsSince(maxIdle, run, n - 1) + if Pings(k, e) then 1 else 0)
            && (warm.None? && !Accepted(k, e) ==> PingsSince(maxIdle, run, n) == 0)
            && (Pings(k, e) ==> !Accepted(k, e) && !e.Invalidated?)
  {
    var w' := LastWarm(maxIdle, run, n);
    if w'.Some? && w'.value == n - 1 {
      assert CountPings(maxIdle, run, n - 1, n - 1) == 0;
    }
  }

  /**
   * Spend bound: at every ping, the pings since the last warm call, this one included, times
   * the spacing fit into the time since that call, which is less than the idle maximum. It
   * holds for successful pings and through failures and backoff.
   */
  lemma SpendBound(maxIdle: nat, run: seq<Event>, n: nat, interval: nat)
    requires n < |run| && InOrder(run) && FixedInterval(run, interval)
    requires OutcomesFollowPings(maxIdle, run) && OnePingAtATime(maxIdle, run)
    requires PingAt(maxIdle, run, n)
    ensures var w := LastWarm(maxIdle, run, n);
            w.Some? &&
            CountPings(maxIdle, run, w.value, n + 1) * Spacing(interval) <= run[n].at - run[w.value].at < maxIdle
  {
    hide Paced, Apply, Pings, Accepted, Spacing, LastWarm, CountPings, After;
    PacedThroughout(maxIdle, run, n, interval);
    IdleClock(maxIdle, run, n);
    PacedStep(After(maxIdle, run[..n]), WarmTime(maxIdle, run, n), PingsSince(maxIdle, run, n),
              Pending(maxIdle, run, n), Clock(run, n), interval, run[n]);
    CountOnePing(maxIdle, run, LastWarm(maxIdle, run, n).value, n);
  }
}
