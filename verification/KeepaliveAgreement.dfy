/**
 * The keepalive and the cache tracker side by side: the keepalive decides when to ping, the
 * tracker judges every call, and the provider forgets a cache that is left alone for an hour.
 * The keepalive hears of a user's message before the call that it starts, and of a heartbeat's
 * calls after them; a ping is sent, then recorded, then confirmed, or it fails and is retried.
 */
module KeepaliveAgreement {
  import opened Common
  import K = CacheKeepalive
  import T = CacheTracker

  const TTL: int := T.DEFAULT_TTL_SECS * T.SECOND

  /**
   * `tickGap` bounds the time from the end of one tick to the next, `callTime` that of a call
   * up to its record, `lag` that from a record until the keepalive hears of it. Up to
   * `failures` pings in a row may fail.
   */
  datatype Setup = Setup(interval: nat, maxIdle: nat, tickGap: nat, callTime: nat, lag: nat, failures: nat,
                         model: string, thinking: bool, start: int)

  /** What the ledger records of a call. */
  datatype Call = Call(callType: CallType, model: string, thinking: bool, read: nat, write: nat)

  datatype Event =
    /** The keepalive is told of a warm cache: `ahead` of the call, or after it. */
    | Warmed(model: string, ahead: bool, at: int)
    | Recorded(call: Call, at: int)
    /** The request of a call is kept for the next ping, with the interval it came with. */
    | Configured(at: int)
    /** A tick; `kept` is false if its decision is thrown away and taken anew by a later tick. */
    | Ticked(kept: bool, at: int)
    | PingRecorded(read: nat, write: nat, at: int)
    | Confirmed(at: int)
    | Failed(at: int)

  datatype Ping = Quiet | Sent(at: int) | Landed(at: int)

  /**
   * `owed` is the first announcement since whose call has not been recorded yet; `lastUse`
   * the last record of a call that used the kept cache; `idleFrom` the idle clock as it was
   * before the call that is owed, if there is one.
   */
  datatype System = System(timer: K.Timer, tracker: T.Tracker, ping: Ping, owed: Option<int>,
                           lastUse: Option<int>, idleFrom: Option<int>, lastTick: int, now: int)

  function Initial(u: Setup): System {
    System(K.Configure(K.New(u.maxIdle), Some(u.interval), u.model), T.Fresh(), Quiet, None, None, None,
           u.start, u.start)
  }

  /** Is the event a call on record? */
  predicate IsCall(e: Event) {
    e.Recorded? || e.PingRecorded?
  }

  function CallOf(u: Setup, e: Event): Call
    requires IsCall(e)
  {
    match e
    case Recorded(call, _) => call
    case PingRecorded(read, write, _) => Call(Keepalive, u.model, u.thinking, read, write)
  }

  function Observation(u: Setup, e: Event): T.Observation
    requires IsCall(e)
  {
    var c := CallOf(u, e);
    T.Observation(Some(e.at), c.model, c.thinking, c.read, c.write, c.callType)
  }

  /** The call uses the cache that the keepalive keeps. */
  predicate UsesKept(u: Setup, c: Call) {
    c.model == u.model && c.thinking == u.thinking
  }

  function AnomalyOf(u: Setup, s: System, e: Event): Option<T.Anomaly> {
    if IsCall(e) then T.Observed(s.tracker, Observation(u, e)).1 else None
  }

  /** The kept cache was used: nothing is owed any more. */
  function Used(s: System, at: int): System {
    s.(owed := None, lastUse := Some(at), idleFrom := s.timer.lastActiveAt, now := at)
  }

  function Next(u: Setup, s: System, e: Event): System {
    match e
    case Warmed(model, ahead, at) =>
      var timer := K.CacheWarmed(s.timer, model, at);
      if !K.Accepts(s.timer, model) then s.(now := at)
      else if ahead then s.(timer := timer, owed := s.owed.OrElse(Some(at)), now := at)
      else s.(timer := timer, idleFrom := if s.owed.None? then Some(at) else s.idleFrom, now := at)
    case Recorded(call, at) =>
      var s' := s.(tracker := T.Observed(s.tracker, Observation(u, e)).0, now := at);
      if UsesKept(u, call) then Used(s', at) else s'
    case Configured(at) => s.(timer := K.Configure(s.timer, Some(u.interval), u.model), now := at)
    case Ticked(kept, at) =>
      var (timer, action) := K.AtTick(s.timer, at);
      if !kept then s.(timer := timer, now := at)
      else s.(timer := timer, ping := if action == K.Ping then Sent(at) else s.ping, lastTick := at, now := at)
    case PingRecorded(_, _, at) =>
      Used(s.(tracker := T.Observed(s.tracker, Observation(u, e)).0, ping := Landed(at)), at)
    case Confirmed(at) => s.(timer := K.PingSucceeded(s.timer, at), ping := Quiet, lastTick := at, now := at)
    case Failed(at) => s.(timer := K.PingFailed(s.timer, at), ping := Quiet, lastTick := at, now := at)
  }

  /**
   * What happens comes within the bounds of the setup. The tick that sends a ping waits for
   * its outcome, so that there is no other tick meanwhile.
   */
  predicate OnTime(u: Setup, s: System, e: Event) {
    && s.now <= e.at
    && (s.owed.Some? ==> e.at <= s.owed.value + u.callTime)
    && (e.Recorded? ==> !e.call.callType.Keepalive?)
    && (e.Warmed? && !e.ahead && e.model == u.model ==> s.lastUse.Some? && e.at <= s.lastUse.value + u.lag)
    && match s.ping
       case Quiet => e.at <= s.lastTick + u.tickGap && !e.PingRecorded? && !e.Confirmed? && !e.Failed?
       case Sent(p) =>
         e.at <= p + u.callTime && !e.Ticked? && !e.Confirmed? && (e.Failed? ==> s.timer.failureCount < u.failures)
       case Landed(r) => e.at <= r + u.lag && !e.Ticked? && !e.PingRecorded? && !e.Failed?
  }

  /** A ping on record within an hour of the last use of the cache has found it. */
  predicate ProviderCaches(s: System, e: Event) {
    e.PingRecorded? && s.lastUse.Some? && e.at - s.lastUse.value <= TTL ==> e.read > 0
  }

  /** The longest that `k` failed pings in a row put the next one off. */
  function Retries(u: Setup, k: nat): nat {
    if k == 0 then 0 else Retries(u, k - 1) + u.tickGap + u.callTime + K.RetryDelay(k)
  }

  /** How long after a use the next ping may be due, after `k` failures. */
  function DueWithin(u: Setup, k: nat): nat {
    u.interval + u.lag + Retries(u, k)
  }

  /**
   * Everything fits into the TTL: the interval, what failures put off, and the time for one
   * ping, or, if a ping may fail, also for a user's call that comes while it is under way. And
   * a call is done before the interval is over.
   */
  predicate Fits(u: Setup) {
    && DueWithin(u, u.failures) + u.tickGap + u.callTime + (if u.failures > 0 then u.callTime else 0) <= TTL
    && u.callTime < u.interval
  }

  function After(u: Setup, run: seq<Event>): System {
    if run == [] then Initial(u) else Next(u, After(u, run[..|run| - 1]), run[|run| - 1])
  }

  predicate Possible(u: Setup, run: seq<Event>) {
    forall i :: 0 <= i < |run| ==> OnTime(u, After(u, run[..i]), run[i]) && ProviderCaches(After(u, run[..i]), run[i])
  }

  // ----- the invariant -----

  /** The cache is kept warm: what comes next, a ping or the call that is owed, comes within the TTL. */
  predicate Lively(u: Setup, s: System) {
    && s.lastUse.Some?
    && match s.owed
       case Some(w) =>
         || w + u.callTime <= s.lastUse.value + TTL
         || (s.ping.Sent? && u.failures == 0 && s.ping.at + u.callTime <= s.lastUse.value + TTL)
       case None =>
         var due := s.lastUse.value + DueWithin(u, s.timer.failureCount);
         match s.ping
         case Quiet => s.timer.nextPingAt.Some? && s.lastTick <= s.timer.nextPingAt.value <= due
         case Sent(p) => p <= due + u.tickGap
         case Landed(r) => r <= s.lastUse.value
  }

  /** Nothing was active yet, or the idle maximum is over; if a call is owed, it comes before any ping. */
  predicate Dormant(u: Setup, s: System) {
    && s.ping == Quiet
    && (s.idleFrom.Some? ==> s.lastUse.Some? && s.idleFrom.value + u.maxIdle <= s.lastUse.value + TTL)
    && match s.owed
       case Some(w) => s.timer.nextPingAt.Some? && w + u.interval <= s.timer.nextPingAt.value
       case None => if s.idleFrom.Some? then s.idleFrom.value + u.maxIdle <= s.now else s.timer.nextPingAt.None?
  }

  predicate Settled(u: Setup, s: System) {
    && s.timer.interval == Some(u.interval) && s.timer.targetModel == Some(u.model) && s.timer.maxIdle == u.maxIdle
    && s.timer.failureCount <= u.failures
    && s.tracker.ttlSecs == T.DEFAULT_TTL_SECS && !s.tracker.ttlExpiredSinceWarm
    && (s.lastUse.Some? ==> s.tracker.lastTs.Some? && s.lastUse.value <= s.tracker.lastTs.value)
  }

  /** The clocks: nothing is stamped later than now, and only the idle maximum stops the timer. */
  predicate Clocked(u: Setup, s: System) {
    && s.lastTick <= s.now
    && (s.lastUse.Some? ==> s.lastUse.value <= s.now)
    && (s.owed.Some? ==> s.owed.value <= s.now && s.timer.lastActiveAt.Some?)
    && (s.owed.None? ==> s.idleFrom == s.timer.lastActiveAt)
    && (!s.ping.Quiet? ==> s.ping.at <= s.now && s.timer.lastActiveAt.Some?)
    && (s.timer.nextPingAt.Some? ==>
          s.timer.lastActiveAt.Some? && s.timer.nextPingAt.value <= s.now + DueWithin(u, s.timer.failureCount))
    && (s.timer.lastActiveAt.Some? ==>
          && s.timer.lastActiveAt.value <= s.now
          && (s.ping.Quiet? && s.now < s.timer.lastActiveAt.value + u.maxIdle ==>
                s.timer.nextPingAt.Some? && s.lastTick <= s.timer.nextPingAt.value)
          && (s.timer.nextPingAt.None? ==> s.timer.lastActiveAt.value + u.maxIdle <= s.now))
  }

  predicate InStep(u: Setup, s: System) {
    Settled(u, s) && Clocked(u, s) && (Lively(u, s) || Dormant(u, s))
  }

  lemma InitialInStep(u: Setup)
    ensures InStep(u, Initial(u))
  {
  }

  /** Any observation stamps the tracker and clears its expiry flag. */
  lemma Observes(t: T.Tracker, o: T.Observation)
    ensures var t' := T.Observed(t, o).0;
            t'.lastTs == o.ts && t'.ttlSecs == t.ttlSecs && !t'.ttlExpiredSinceWarm
  {
  }

  /** Without an expired hour there is no missed keepalive. */
  lemma NoMissWithinTtl(t: T.Tracker, o: T.Observation)
    requires !t.ttlExpiredSinceWarm && t.ttlSecs == T.DEFAULT_TTL_SECS && o.ts.Some?
    requires t.state == T.Cold || (t.lastTs.Some? && o.ts.value - t.lastTs.value <= TTL)
    ensures T.Observed(t, o).1 != Some(T.KeepaliveMiss)
  {
  }

  lemma NeverColdIfRead(t: T.Tracker, o: T.Observation)
    requires o.read > 0 || !o.callType.Keepalive?
    ensures T.Observed(t, o).1 != Some(T.ColdKeepalive)
  {
  }

  lemma {:induction false} RetriesGrow(u: Setup, k: nat, n: nat)
    requires k <= n
    ensures Retries(u, k) <= Retries(u, n)
  {
    if k < n { RetriesGrow(u, k, n - 1); }
  }

  /** So many failures do not fit that their counter would saturate. */
  lemma {:induction false} RetriesTakeTime(u: Setup, k: nat)
    ensures Retries(u, k) >= 30 * K.SECOND * k
  {
    if k > 0 {
      RetriesTakeTime(u, k - 1);
      hide K.RetryDelay;
    }
  }

  /** Whatever comes before the cache is used again comes within the hour. */
  lemma ComesInTime(u: Setup, s: System, e: Event)
    requires Fits(u) && InStep(u, s) && OnTime(u, s, e)
    ensures Lively(u, s) ==> e.at <= s.lastUse.value + TTL
    ensures s.idleFrom.Some? && e.at <= s.idleFrom.value + u.maxIdle ==>
              s.lastUse.Some? && e.at <= s.lastUse.value + TTL
    ensures s.ping.Sent? ==> s.lastUse.Some? && e.at <= s.lastUse.value + TTL
  {
    RetriesGrow(u, s.timer.failureCount, u.failures);
    hide Retries;
  }

  lemma StepStaysSettled(u: Setup, s: System, e: Event)
    requires Settled(u, s) && Clocked(u, s) && OnTime(u, s, e)
    ensures Settled(u, Next(u, s, e))
  {
    if IsCall(e) { Observes(s.tracker, Observation(u, e)); }
    hide T.Observed, DueWithin, K.RetryDelay;
  }

  lemma TimerKeepsTime(u: Setup, s: System, e: Event)
    requires InStep(u, s) && OnTime(u, s, e) && (e.Warmed? || e.Configured? || e.Ticked?)
    ensures Clocked(u, Next(u, s, e))
  {
    hide Retries;
  }

  lemma OutcomeKeepsTime(u: Setup, s: System, e: Event)
    requires InStep(u, s) && OnTime(u, s, e) && !e.Warmed? && !e.Configured? && !e.Ticked?
    ensures Clocked(u, Next(u, s, e))
  {
    hide T.Observed, K.RetryDelay, Lively, Dormant;
    var k := K.PingFailed(s.timer, e.at).failureCount;
    assert K.RetryDelay(k) <= Retries(u, k);
    hide Retries;
  }

  lemma StepKeepsTime(u: Setup, s: System, e: Event)
    requires InStep(u, s) && OnTime(u, s, e)
    ensures Clocked(u, Next(u, s, e))
  {
    hide InStep, OnTime, Next, Clocked;
    if e.Warmed? || e.Configured? || e.Ticked? {
      TimerKeepsTime(u, s, e);
    } else {
      OutcomeKeepsTime(u, s, e);
    }
  }

  lemma FailureStaysLively(u: Setup, s: System, e: Event)
    requires Fits(u) && InStep(u, s) && OnTime(u, s, e) && e.Failed?
    ensures Lively(u, Next(u, s, e))
  {
    var k := s.timer.failureCount;
    RetriesTakeTime(u, u.failures);
    hide T.Observed, K.RetryDelay;
    assert Retries(u, k + 1) == Retries(u, k) + u.tickGap + u.callTime + K.RetryDelay(k + 1);
    hide Retries;
  }

  lemma TickStaysLively(u: Setup, s: System, e: Event)
    requires Fits(u) && InStep(u, s) && OnTime(u, s, e) && (e.Ticked? || e.Configured?)
    ensures Lively(u, Next(u, s, e)) || Dormant(u, Next(u, s, e))
  {
    ComesInTime(u, s, e);
    hide Retries;
  }

  lemma WarmingStaysLively(u: Setup, s: System, e: Event)
    requires Fits(u) && InStep(u, s) && OnTime(u, s, e) && e.Warmed?
    ensures Lively(u, Next(u, s, e)) || Dormant(u, Next(u, s, e))
  {
    ComesInTime(u, s, e);
    RetriesGrow(u, s.timer.failureCount, u.failures);
    hide Retries;
  }

  lemma CallStaysLively(u: Setup, s: System, e: Event)
    requires Fits(u) && InStep(u, s) && OnTime(u, s, e) && (IsCall(e) || e.Confirmed?)
    ensures Lively(u, Next(u, s, e)) || Dormant(u, Next(u, s, e))
  {
    ComesInTime(u, s, e);
    hide T.Observed, Retries;
  }

  lemma StepStaysLively(u: Setup, s: System, e: Event)
    requires Fits(u) && InStep(u, s) && OnTime(u, s, e)
    ensures Lively(u, Next(u, s, e)) || Dormant(u, Next(u, s, e))
  {
    hide InStep, Fits, OnTime, Next, Lively, Dormant;
    match e
    case Failed(_) => FailureStaysLively(u, s, e);
    case Ticked(_, _) => TickStaysLively(u, s, e);
    case Configured(_) => TickStaysLively(u, s, e);
    case Warmed(_, _, _) => WarmingStaysLively(u, s, e);
    case _ => CallStaysLively(u, s, e);
  }

  lemma StepStaysInStep(u: Setup, s: System, e: Event)
    requires Fits(u) && InStep(u, s) && OnTime(u, s, e)
    ensures InStep(u, Next(u, s, e))
  {
    StepStaysSettled(u, s, e);
    StepKeepsTime(u, s, e);
    StepStaysLively(u, s, e);
    hide Settled, Clocked, Lively, Dormant, Next, Fits, OnTime;
  }

  lemma {:induction false} AlwaysInStep(u: Setup, run: seq<Event>, n: nat)
    requires Fits(u) && Possible(u, run) && n <= |run|
    ensures InStep(u, After(u, run[..n]))
  {
    hide InStep, OnTime, ProviderCaches, Next, Fits;
    if n == 0 {
      InitialInStep(u);
      assert run[..0] == [];
    } else {
      AlwaysInStep(u, run, n - 1);
      assert run[..n][..n - 1] == run[..n - 1];
      StepStaysInStep(u, After(u, run[..n - 1]), run[n - 1]);
    }
  }

  /**
   * The two agree. If everything fits into the TTL, then in every possible run no ping is ever
   * cold, and no call of any kind or model up to the idle maximum after the last activity
   * counts as a missed keepalive, whatever pings fail on the way; a call that ends a longer
   * silence is judged by the activity before it.
   */
  lemma KeepaliveSatisfiesTracker(u: Setup, run: seq<Event>, n: nat)
    requires Fits(u) && Possible(u, run) && n < |run|
    ensures var s, e := After(u, run[..n]), run[n];
            && AnomalyOf(u, s, e) != Some(T.ColdKeepalive)
            && (s.idleFrom.Some? && e.at <= s.idleFrom.value + u.maxIdle ==>
                  AnomalyOf(u, s, e) != Some(T.KeepaliveMiss))
  {
    var s, e := After(u, run[..n]), run[n];
    AlwaysInStep(u, run, n);
    ComesInTime(u, s, e);
    hide T.Observed, Lively, Dormant, Clocked, Fits;
    if IsCall(e) {
      NeverColdIfRead(s.tracker, Observation(u, e));
      if s.idleFrom.Some? && e.at <= s.idleFrom.value + u.maxIdle {
        NoMissWithinTtl(s.tracker, Observation(u, e));
      }
    }
  }

  const MINUTE: int := 60 * T.SECOND

  /**
   * With pings every 55 minutes, ticks ten seconds apart and records heard of at once,
   * everything fits exactly if calls take at most 290 seconds, or, if one ping may fail, a
   * third of 250.
   */
  lemma DefaultsFit(maxIdle: nat, callTime: nat, model: string, thinking: bool, start: int)
    ensures Fits(Setup(55 * MINUTE, maxIdle, 10 * T.SECOND, callTime, 0, 0, model, thinking, start)) <==>
              callTime <= 290 * T.SECOND
    ensures Fits(Setup(55 * MINUTE, maxIdle, 10 * T.SECOND, callTime, 0, 1, model, thinking, start)) <==>
              3 * callTime <= 250 * T.SECOND
  {
    var u := Setup(55 * MINUTE, maxIdle, 10 * T.SECOND, callTime, 0, 1, model, thinking, start);
    assert Retries(u, 0) == 0;
    assert Retries(u, 1) == 10 * T.SECOND + callTime + K.RetryDelay(1);
    assert K.RetryDelay(1) == 30 * T.SECOND;
  }

  // ----- past the idle maximum -----

  /** The calls of a run, pings among them, as the tracker sees them. */
  function Calls(u: Setup, run: seq<Event>): (h: seq<T.Observation>)
    ensures forall i :: 0 <= i < |h| ==> h[i].ts.Some?
  {
    if run == [] then []
    else
      var e := run[|run| - 1];
      Calls(u, run[..|run| - 1]) + if IsCall(e) then [Observation(u, e)] else []
  }

  lemma HistoryNext(h: seq<T.Observation>, o: T.Observation)
    ensures T.After(h + [o]) == T.Observed(T.After(h), o).0
  {
    assert (h + [o])[..|h|] == h;
    hide T.Observed;
  }

  lemma TrackerNext(u: Setup, s: System, e: Event)
    ensures Next(u, s, e).tracker == if IsCall(e) then T.Observed(s.tracker, Observation(u, e)).0 else s.tracker
  {
    hide T.Observed;
  }

  /** In every run the tracker is the one that has observed just the calls. */
  lemma {:induction false} TrackerFollowsCalls(u: Setup, run: seq<Event>)
    ensures After(u, run).tracker == T.After(Calls(u, run))
  {
    if run != [] {
      var before, e := run[..|run| - 1], run[|run| - 1];
      TrackerFollowsCalls(u, before);
      TrackerNext(u, After(u, before), e);
      if IsCall(e) { HistoryNext(Calls(u, before), Observation(u, e)); }
      assert Calls(u, before) + [] == Calls(u, before);
      hide Next, T.After, T.Observed;
    }
  }

  /** A tracker misses a keepalive at a real call when it was warm and the gap is of that length. */
  lemma MissNow(t: T.Tracker, o: T.Observation)
    requires !t.ttlExpiredSinceWarm && t.lastTs.Some? && o.ts.Some?
    requires t.ttlSecs == T.DEFAULT_TTL_SECS && t.maxIdleSecs == T.DEFAULT_MAX_IDLE_SECS
    requires !o.callType.Compaction? && !o.callType.Keepalive?
    ensures T.Observed(t, o).1 == Some(T.KeepaliveMiss) <==>
              t.state == T.Warm &&
              T.DEFAULT_TTL_SECS < T.NumSeconds(o.ts.value - t.lastTs.value) <= T.DEFAULT_MAX_IDLE_SECS
  {
    hide T.NumSeconds;
  }

  /**
   * After every run, a call counts as a missed keepalive exactly when it is neither a ping nor
   * a compaction, the calls before it leave the cache warm, and the time since the last of
   * them is over the TTL but within twelve hours, whether or not the keepalive had stopped on
   * purpose. Before the idle maximum, by the agreement, that never happens.
   */
  lemma MissAfterStop(u: Setup, run: seq<Event>, e: Event)
    requires e.Recorded? && !e.call.callType.Keepalive?
    ensures var h := Calls(u, run);
            AnomalyOf(u, After(u, run), e) == Some(T.KeepaliveMiss) <==>
              !e.call.callType.Compaction? && h != [] && T.WarmBefore(h, |h|) &&
              3_601 * T.SECOND <= e.at - h[|h| - 1].ts.value < 43_201 * T.SECOND
  {
    var h := Calls(u, run);
    TrackerFollowsCalls(u, run);
    T.HoldsAll(h, |h|);
    assert h[..|h|] == h;
    var t, o := T.After(h), Observation(u, e);
    assert AnomalyOf(u, After(u, run), e) == T.Observed(t, o).1;
    assert o.callType.Compaction? ==> T.Observed(t, o).1 == None;
    hide After, AnomalyOf, T.After, T.Observed, T.WarmBefore, T.NumSeconds, T.KeepsLoop, T.Baseline, Calls;
    if h == [] {
      NoMissWithinTtl(t, o);
    } else if !o.callType.Compaction? {
      MissNow(t, o);
      T.GapInSeconds(e.at - h[|h| - 1].ts.value);
    }
  }

  lemma AfterNext(u: Setup, run: seq<Event>, n: nat)
    requires n < |run|
    ensures After(u, run[..n + 1]) == Next(u, After(u, run[..n]), run[n])
  {
    assert run[..n + 1][..n] == run[..n];
  }

  lemma PossibleNext(u: Setup, run: seq<Event>, n: nat)
    requires n < |run| && Possible(u, run[..n]) && OnTime(u, After(u, run[..n]), run[n]) && !run[n].PingRecorded?
    ensures Possible(u, run[..n + 1])
  {
    hide OnTime, After;
    forall i | 0 <= i < n + 1
      ensures OnTime(u, After(u, run[..n + 1][..i]), run[i]) && ProviderCaches(After(u, run[..n + 1][..i]), run[i])
    {
      assert run[..n + 1][..i] == run[..i];
      assert i < n ==> run[..n][..i] == run[..i] && run[..n][i] == run[i];
    }
  }

  /** Pings every half hour, and half an hour of idling. */
  const HALF_HOURLY := Setup(30 * MINUTE, 30 * MINUTE, 25 * MINUTE, 5 * MINUTE, 0, 0, "m", false, 0)

  /** A run in which pinging stops as configured, and the user is back after an hour and forty minutes. */
  const BACK_LATE: seq<Event> := [Warmed("m", true, 0), Recorded(Call(Message, "m", false, 0, 10), 0),
                                  Ticked(true, 25 * MINUTE), Ticked(true, 50 * MINUTE), Ticked(true, 75 * MINUTE),
                                  Warmed("m", true, 100 * MINUTE),
                                  Recorded(Call(Message, "m", false, 5, 5), 100 * MINUTE)]

  /** The state after the first `n` events of the run. */
  function BackLate(n: nat): System
    requires n <= 6
  {
    if n == 0 then Initial(HALF_HOURLY) else Next(HALF_HOURLY, BackLate(n - 1), BACK_LATE[n - 1])
  }

  /** What the run comes to, event by event. */
  lemma BackLateStates()
    ensures forall n :: 0 <= n < 7 ==> OnTime(HALF_HOURLY, BackLate(n), BACK_LATE[n]) && !BACK_LATE[n].PingRecorded?
    ensures BackLate(4).timer.nextPingAt == None
    ensures AnomalyOf(HALF_HOURLY, BackLate(6), BACK_LATE[6]) == Some(T.KeepaliveMiss)
  {
    var s0, s1, s2, s3, s4, s5, s6 :=
      BackLate(0), BackLate(1), BackLate(2), BackLate(3), BackLate(4), BackLate(5), BackLate(6);
    assert s1.timer.nextPingAt == Some(30 * MINUTE) && s1.owed == Some(0) && s1.tracker == T.Fresh();
    assert s2.tracker.state == T.Warm && s2.timer == s1.timer && s2.owed == None;
    assert s3.timer == s1.timer && s3.tracker == s2.tracker && s3.ping == Quiet;
    assert s4.timer.nextPingAt == None && s4.tracker == s2.tracker && s4.ping == Quiet;
    assert s5.timer == s4.timer && s5.tracker == s2.tracker && s5.ping == Quiet;
    assert s6.tracker == s2.tracker && s6.owed == Some(100 * MINUTE) && s6.ping == Quiet;
    hide BackLate;
    forall n | 0 <= n < 7
      ensures OnTime(HALF_HOURLY, BackLate(n), BACK_LATE[n])
    {
      assert n == 0 || n == 1 || n == 2 || n == 3 || n == 4 || n == 5 || n == 6;
    }
  }

  /** The run is possible, and goes through these states. */
  lemma {:induction false} BackLateRun(n: nat)
    requires n <= 6
    ensures After(HALF_HOURLY, BACK_LATE[..n]) == BackLate(n) && Possible(HALF_HOURLY, BACK_LATE[..n + 1])
  {
    BackLateStates();
    var u, run := HALF_HOURLY, BACK_LATE;
    if n == 0 {
      assert run[..0] == [];
      assert After(u, []) == Initial(u) == BackLate(0);
      hide *;
    } else {
      assert BackLate(n) == Next(u, BackLate(n - 1), run[n - 1]);
      hide *;
      BackLateRun(n - 1);
      AfterNext(u, run, n - 1);
    }
    assert |run| == 7;
    PossibleNext(u, run, n);
  }

  lemma DeliberateStopIsFlagged()
    ensures var u, run := HALF_HOURLY, BACK_LATE;
            && Fits(u) && Possible(u, run) && After(u, run[..4]).timer.nextPingAt == None
            && AnomalyOf(u, After(u, run[..6]), run[6]) == Some(T.KeepaliveMiss)
  {
    assert Fits(HALF_HOURLY) by { assert Retries(HALF_HOURLY, 0) == 0; }
    hide *;
    BackLateStates();
    BackLateRun(4);
    BackLateRun(6);
    assert BACK_LATE[..7] == BACK_LATE;
  }
}
