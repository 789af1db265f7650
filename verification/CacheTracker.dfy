/**
 * The warm/cold tracker of a character's prompt cache: every recorded call is observed,
 * and observations that contradict a warm cache are flagged.
 */
module CacheTracker {
  import opened Common

  datatype CacheState = Cold | Warm

  datatype Anomaly = UnexpectedWrite | KeepaliveMiss | ColdKeepalive

  /** One recorded call. `ts` is in nanoseconds; none if the stored text is no timestamp. */
  datatype Observation = Observation(
    ts: Option<int>,
    model: string,
    thinking: bool,
    read: nat,
    write: nat,
    callType: CallType)

  const SECOND: int := 1_000_000_000
  const DEFAULT_TTL_SECS: int := 3600
  const DEFAULT_MAX_IDLE_SECS: int := 12 * 3600

  /** Whole seconds of a duration, towards zero. */
  function NumSeconds(d: int): int {
    if d >= 0 then d / SECOND else -(-d / SECOND)
  }

  /** The two call types that keep a baseline of their own. */
  predicate IsToolLoop(callType: CallType) {
    callType.ToolLoop? || callType.HeartbeatToolLoop?
  }

  // ----- one observation, as a function -----

  datatype Tracker = Tracker(
    state: CacheState,
    lastTs: Option<int>,
    lastModel: Option<string>,
    lastThinking: Option<bool>,
    lastCallType: Option<CallType>,
    lastCacheRead: nat,
    lastToolLoopKind: Option<CallType>,
    lastToolLoopCacheRead: nat,
    ttlSecs: int,
    maxIdleSecs: int,
    ttlExpiredSinceWarm: bool)

  function Fresh(): Tracker {
    Tracker(Cold, None, None, None, None, 0, None, 0, DEFAULT_TTL_SECS, DEFAULT_MAX_IDLE_SECS, false)
  }

  predicate TtlExpired(t: Tracker, o: Observation) {
    t.lastTs.Some? && o.ts.Some? && NumSeconds(o.ts.value - t.lastTs.value) > t.ttlSecs
  }

  predicate ModelChanged(t: Tracker, o: Observation) {
    t.lastModel.Some? && t.lastModel.value != o.model
  }

  predicate ThinkingChanged(t: Tracker, o: Observation) {
    t.lastThinking.Some? && t.lastThinking.value != o.thinking
  }

  /** The cache is known to be gone: cold, and no baseline to compare with. */
  function Reset(t: Tracker, expired: bool): Tracker {
    t.(state := Cold, lastCacheRead := 0, lastToolLoopKind := None, lastToolLoopCacheRead := 0,
       ttlExpiredSinceWarm := expired)
  }

  /** A warm cache that has since expired, or was left for another model or thinking setting. */
  function Invalidate(t: Tracker, o: Observation): Tracker {
    if t.state == Cold then t
    else if TtlExpired(t, o) then Reset(t, true)
    else if ModelChanged(t, o) || ThinkingChanged(t, o) then Reset(t, false)
    else t
  }

  /** Does a call on a warm cache read less than it must? */
  predicate ReadsTooLittle(t: Tracker, o: Observation) {
    if IsToolLoop(o.callType) then
      if t.lastToolLoopKind == Some(o.callType) && t.lastCallType == Some(o.callType)
      then o.read < t.lastToolLoopCacheRead
      else t.lastCacheRead > 0 && o.read == 0 && o.write > 0
    else
      o.callType.Message? && o.read < t.lastCacheRead
  }

  predicate MissedKeepalive(t: Tracker, o: Observation) {
    && t.ttlExpiredSinceWarm && !o.callType.Keepalive?
    && (t.lastTs.Some? && o.ts.Some? ==> NumSeconds(o.ts.value - t.lastTs.value) <= t.maxIdleSecs)
  }

  /** The anomaly of a call, given the tracker after invalidation. */
  function AnomalyOf(t: Tracker, o: Observation): Option<Anomaly> {
    if t.state == Warm && ReadsTooLittle(t, o) then Some(UnexpectedWrite)
    else if MissedKeepalive(t, o) then Some(KeepaliveMiss)
    else if o.callType.Keepalive? && o.read == 0 && o.write > 0 then Some(ColdKeepalive)
    else None
  }

  /** Evaluation of a call against a tracker already invalidated. */
  function Evaluated(t: Tracker, o: Observation): Tracker {
    var t' := t.(ttlExpiredSinceWarm := false);
    if t.state == Warm && ReadsTooLittle(t, o) then t'.(state := Cold, lastCacheRead := 0)
    else if o.read > 0 || o.write > 0 then t'.(state := Warm)
    else t'
  }

  /** The baselines the next calls are compared with. */
  function Rebased(t: Tracker, o: Observation, anomaly: Option<Anomaly>): Tracker {
    if IsToolLoop(o.callType) && anomaly.None? then
      t.(lastToolLoopKind := Some(o.callType), lastToolLoopCacheRead := o.read)
    else if IsToolLoop(o.callType) || o.callType.Heartbeat? then
      t.(lastToolLoopKind := None, lastToolLoopCacheRead := 0)
    else if o.callType.Message? then
      t.(lastCacheRead := o.read, lastToolLoopKind := None, lastToolLoopCacheRead := 0)
    else t
  }

  function Stamped(t: Tracker, o: Observation): Tracker {
    t.(lastTs := o.ts, lastModel := Some(o.model), lastThinking := Some(o.thinking), lastCallType := Some(o.callType))
  }

  /** The tracker and the anomaly after one observation. */
  function Observed(before: Tracker, o: Observation): (Tracker, Option<Anomaly>) {
    if o.callType.Compaction? then (Stamped(Reset(before, false), o), None)
    else
      var t := Invalidate(before, o);
      var anomaly := AnomalyOf(t, o);
      (Stamped(Rebased(Evaluated(t, o), o, anomaly), o), anomaly)
  }

  // ----- the tracker itself -----

  class CacheTracker {
    var state: CacheState
    var lastTs: Option<int>
    var lastModel: Option<string>
    var lastThinking: Option<bool>
    var lastCallType: Option<CallType>
    var lastCacheRead: nat
    var lastToolLoopKind: Option<CallType>
    var lastToolLoopCacheRead: nat
    const ttlSecs: int
    const maxIdleSecs: int
    var ttlExpiredSinceWarm: bool

    function Model(): Tracker
      reads this
    {
      Tracker(state, lastTs, lastModel, lastThinking, lastCallType, lastCacheRead, lastToolLoopKind,
              lastToolLoopCacheRead, ttlSecs, maxIdleSecs, ttlExpiredSinceWarm)
    }

    constructor ()
      ensures Model() == Fresh()
    {
      state := Cold;
      lastTs, lastModel, lastThinking, lastCallType := None, None, None, None;
      lastCacheRead := 0;
      lastToolLoopKind, lastToolLoopCacheRead := None, 0;
      ttlSecs, maxIdleSecs := DEFAULT_TTL_SECS, DEFAULT_MAX_IDLE_SECS;
      ttlExpiredSinceWarm := false;
    }

    method ClearToolLoopBaseline()
      modifies this`lastToolLoopKind, this`lastToolLoopCacheRead
      ensures Model() == old(Model()).(lastToolLoopKind := None, lastToolLoopCacheRead := 0)
    {
      lastToolLoopKind := None;
      lastToolLoopCacheRead := 0;
    }

    method UpdateMetadata(o: Observation)
      modifies this`lastTs, this`lastModel, this`lastThinking
      ensures Model() == old(Model()).(lastTs := o.ts, lastModel := Some(o.model), lastThinking := Some(o.thinking))
    {
      lastTs := o.ts;
      lastModel := Some(o.model);
      lastThinking := Some(o.thinking);
    }

    method ObserveWarmCache(o: Observation) returns (anomaly: Option<Anomaly>)
      modifies this`state, this`lastCacheRead
      ensures anomaly == if ReadsTooLittle(old(Model()), o) then Some(UnexpectedWrite) else None
      ensures Model() == if anomaly.Some? then old(Model()).(state := Cold, lastCacheRead := 0) else old(Model())
    {
      if IsToolLoop(o.callType) {
        var continuedLoop := lastToolLoopKind == Some(o.callType) && lastCallType == Some(o.callType);
        var droppedWithinLoop := continuedLoop && o.read < lastToolLoopCacheRead;
        var coldWriteAfterWarmMessage := !continuedLoop && lastCacheRead > 0 && o.read == 0 && o.write > 0;
        if droppedWithinLoop || coldWriteAfterWarmMessage {
          state := Cold;
          lastCacheRead := 0;
          return Some(UnexpectedWrite);
        }
        return None;
      }
      if !o.callType.Message? || o.read >= lastCacheRead {
        anomaly := None;
      } else {
        state := Cold;
        lastCacheRead := 0;
        anomaly := Some(UnexpectedWrite);
      }
    }

    /** Steps 2 to 4: expiry, model change and thinking toggle, each only while still warm. */
    method InvalidateIfStale(o: Observation)
      modifies this
      ensures Model() == Invalidate(old(Model()), o)
    {
      if state == Warm && lastTs.Some? && o.ts.Some? {
        if NumSeconds(o.ts.value - lastTs.value) > ttlSecs {
          state := Cold;
          lastCacheRead := 0;
          ClearToolLoopBaseline();
          ttlExpiredSinceWarm := true;
        }
      }
      if state == Warm && lastModel.Some? && lastModel.value != o.model {
        state := Cold;
        lastCacheRead := 0;
        ClearToolLoopBaseline();
        ttlExpiredSinceWarm := false;
      }
      if state == Warm && lastThinking.Some? && lastThinking.value != o.thinking {
        state := Cold;
        lastCacheRead := 0;
        ClearToolLoopBaseline();
        ttlExpiredSinceWarm := false;
      }
    }

    /** Step 5: the read is judged, then a missed keepalive, then a cold one. */
    method Evaluate(o: Observation) returns (anomaly: Option<Anomaly>)
      modifies this
      ensures anomaly == AnomalyOf(old(Model()), o)
      ensures Model() == Evaluated(old(Model()), o)
    {
      hide ReadsTooLittle;
      if state == Warm {
        anomaly := ObserveWarmCache(o);
      } else {
        if o.read > 0 || o.write > 0 {
          state := Warm;
        }
        anomaly := None;
      }
      if ttlExpiredSinceWarm {
        ttlExpiredSinceWarm := false;
        if !o.callType.Keepalive? {
          var withinKeepaliveWindow := lastTs.Some? && o.ts.Some? ==>
            NumSeconds(o.ts.value - lastTs.value) <= maxIdleSecs;
          if anomaly.None? && withinKeepaliveWindow {
            anomaly := Some(KeepaliveMiss);
          }
        }
      }
      if anomaly.None? && o.callType.Keepalive? && o.read == 0 && o.write > 0 {
        anomaly := Some(ColdKeepalive);
      }
    }

    /** Step 6. */
    method UpdateBaselines(o: Observation, anomaly: Option<Anomaly>)
      modifies this
      ensures Model() == Rebased(old(Model()), o, anomaly)
    {
      if IsToolLoop(o.callType) {
        if anomaly.None? {
          lastToolLoopKind := Some(o.callType);
          lastToolLoopCacheRead := o.read;
        } else {
          ClearToolLoopBaseline();
        }
      } else if o.callType.Message? {
        lastCacheRead := o.read;
        ClearToolLoopBaseline();
      } else if o.callType.Heartbeat? {
        ClearToolLoopBaseline();
      }
    }

    method Observe(o: Observation) returns (anomaly: Option<Anomaly>)
      modifies this
      ensures (Model(), anomaly) == Observed(old(Model()), o)
    {
      hide Invalidate, AnomalyOf, Evaluated, Rebased;
      // Compaction is deliberate.
      if o.callType.Compaction? {
        state := Cold;
        lastCacheRead := 0;
        ClearToolLoopBaseline();
        ttlExpiredSinceWarm := false;
        UpdateMetadata(o);
        lastCallType := Some(o.callType);
        return None;
      }
      InvalidateIfStale(o);
      anomaly := Evaluate(o);
      UpdateBaselines(o, anomaly);
      UpdateMetadata(o);
      lastCallType := Some(o.callType);
    }
  }

  // ----- runs -----

  /** The tracker after observing a whole history from the start. */
  function After(history: seq<Observation>): Tracker {
    if history == [] then Fresh() else Observed(After(history[..|history| - 1]), history[|history| - 1]).0
  }

  function AnomalyAt(history: seq<Observation>, i: nat): Option<Anomaly>
    requires i < |history|
  {
    Observed(After(history[..i]), history[i]).1
  }

  /** No call before position `n` was flagged as an unexpected write. */
  predicate CleanBefore(history: seq<Observation>, n: nat)
    requires n <= |history|
  {
    forall j :: 0 <= j < n ==> AnomalyAt(history, j) != Some(UnexpectedWrite)
  }

  // What the history says, without a tracker.

  predicate Gap(a: Observation, b: Observation) {
    a.ts.Some? && b.ts.Some? && NumSeconds(b.ts.value - a.ts.value) > DEFAULT_TTL_SECS
  }

  /** From one call to the next the cached prefix stays what it was. */
  predicate Continues(a: Observation, b: Observation) {
    !b.callType.Compaction? && !Gap(a, b) && a.model == b.model && a.thinking == b.thinking
  }

  /** Position of the latest message before `n`, or none. */
  function LatestMessage(history: seq<Observation>, n: nat): (m: Option<nat>)
    requires n <= |history|
    ensures m.Some? ==> m.value < n && history[m.value].callType.Message?
    ensures m.Some? ==> forall j :: m.value < j < n ==> !history[j].callType.Message?
    ensures m.None? ==> forall j :: 0 <= j < n ==> !history[j].callType.Message?
  {
    if n == 0 then None
    else if history[n - 1].callType.Message? then Some(n - 1)
    else LatestMessage(history, n - 1)
  }

  predicate UnbrokenFrom(history: seq<Observation>, m: nat, n: nat)
    requires m <= n < |history|
  {
    forall j :: m < j <= n ==> Continues(history[j - 1], history[j])
  }

  /**
   * The message at `n` reads less than the latest earlier message did, although from that
   * message on there was no compaction, model or thinking change, and no gap over the TTL.
   */
  predicate ReadDropped(history: seq<Observation>, n: nat)
    requires n < |history|
  {
    var m := LatestMessage(history, n);
    m.Some? && UnbrokenFrom(history, m.value, n) && history[n].read < history[m.value].read
  }

  /** What the tracker remembers of a history without unexpected writes. */
  predicate Remembers(t: Tracker, history: seq<Observation>) {
    && t.ttlSecs == DEFAULT_TTL_SECS
    && (t.lastCacheRead > 0 ==> t.state == Warm)
    && (if history == [] then t == Fresh()
        else
          var n := |history| - 1;
          var m := LatestMessage(history, n + 1);
          && t.lastTs == history[n].ts
          && t.lastModel == Some(history[n].model)
          && t.lastThinking == Some(history[n].thinking)
          && t.lastCacheRead == if m.Some? && UnbrokenFrom(history, m.value, n) then history[m.value].read else 0)
  }

  lemma LatestMessageOfPrefix(history: seq<Observation>, n: nat, k: nat)
    requires k <= n <= |history|
    ensures LatestMessage(history[..n], k) == LatestMessage(history, k)
  {
  }

  lemma UnbrokenOfPrefix(history: seq<Observation>, m: nat, k: nat, n: nat)
    requires m <= k < n <= |history|
    ensures UnbrokenFrom(history[..n], m, k) <==> UnbrokenFrom(history, m, k)
  {
  }

  lemma UnbrokenNext(history: seq<Observation>, m: nat, n: nat)
    requires m < n < |history|
    ensures UnbrokenFrom(history, m, n) <==> UnbrokenFrom(history, m, n - 1) && Continues(history[n - 1], history[n])
  {
    hide Continues;
  }

  /** One more call leaves the tracker remembering the longer history. */
  lemma RemembersNext(t: Tracker, history: seq<Observation>, o: Observation)
    requires Remembers(t, history)
    requires Observed(t, o).1 != Some(UnexpectedWrite)
    ensures Remembers(Observed(t, o).0, history + [o])
  {
    var longer, n := history + [o], |history|;
    assert UnbrokenFrom(longer, n, n);
    hide Continues, UnbrokenFrom;
    StampOf(t, o);
    if n == 0 { FirstBaseline(o); }
    hide Observed;
    LatestMessageOfPrefix(longer, n, n);
    assert longer[..n] == history;
    if n > 0 {
      var m := LatestMessage(history, n);
      if m.Some? {
        UnbrokenOfPrefix(longer, m.value, n - 1, n);
        UnbrokenNext(longer, m.value, n);
      }
      BaselineAfter(t, history[n - 1], o);
    }
  }

  /** Every observation leaves its own time, model and setting behind, and no baseline on a cold tracker. */
  lemma StampOf(t: Tracker, o: Observation)
    requires t.lastCacheRead > 0 ==> t.state == Warm
    ensures var t' := Observed(t, o).0;
            && t'.ttlSecs == t.ttlSecs && t'.lastTs == o.ts
            && t'.lastModel == Some(o.model) && t'.lastThinking == Some(o.thinking)
            && (Observed(t, o).1 != Some(UnexpectedWrite) && t'.lastCacheRead > 0 ==> t'.state == Warm)
  {
    hide TtlExpired;
  }

  lemma FirstBaseline(o: Observation)
    ensures Observed(Fresh(), o).0.lastCacheRead == if o.callType.Message? then o.read else 0
  {
  }

  lemma BaselineAfter(t: Tracker, last: Observation, o: Observation)
    requires t.ttlSecs == DEFAULT_TTL_SECS && (t.lastCacheRead > 0 ==> t.state == Warm)
    requires t.lastTs == last.ts && t.lastModel == Some(last.model) && t.lastThinking == Some(last.thinking)
    requires Observed(t, o).1 != Some(UnexpectedWrite)
    ensures Observed(t, o).0.lastCacheRead ==
      if o.callType.Message? then o.read else if Continues(last, o) then t.lastCacheRead else 0
  {
    hide NumSeconds;
  }

  lemma {:induction false} RemembersAll(history: seq<Observation>)
    requires CleanBefore(history, |history|)
    ensures Remembers(After(history), history)
  {
    if history != [] {
      var n := |history| - 1;
      var front := history[..n];
      forall j | 0 <= j < n
        ensures AnomalyAt(front, j) == AnomalyAt(history, j)
      {
        assert front[..j] == history[..j];
      }
      RemembersAll(front);
      assert AnomalyAt(history, n) != Some(UnexpectedWrite);
      RemembersNext(After(front), front, history[n]);
      assert front + [history[n]] == history;
    }
  }

  /**
   * The tracker agrees with its history: in every run, up to and including the first
   * unexpected write, a message is flagged exactly when its read dropped.
   */
  lemma FlaggedIffReadDropped(history: seq<Observation>, n: nat)
    requires n < |history| && history[n].callType.Message?
    requires CleanBefore(history, n)
    ensures AnomalyAt(history, n) == Some(UnexpectedWrite) <==> ReadDropped(history, n)
  {
    hide NumSeconds, Observed;
    var front := history[..n];
    forall j | 0 <= j < n
      ensures AnomalyAt(front, j) == AnomalyAt(history, j)
    {
      assert front[..j] == history[..j];
    }
    RemembersAll(front);
    var m := LatestMessage(history, n);
    LatestMessageOfPrefix(history, n, n);
    if m.Some? {
      UnbrokenOfPrefix(history, m.value, n - 1, n);
      UnbrokenNext(history, m.value, n);
    }
    if n > 0 { FlagOf(After(front), history[n - 1], history[n]); } else { FlagOfFirst(history[0]); }
  }

  lemma FlagOf(t: Tracker, last: Observation, o: Observation)
    requires t.ttlSecs == DEFAULT_TTL_SECS && (t.lastCacheRead > 0 ==> t.state == Warm) && o.callType.Message?
    requires t.lastTs == last.ts && t.lastModel == Some(last.model) && t.lastThinking == Some(last.thinking)
    ensures Observed(t, o).1 == Some(UnexpectedWrite) <==> Continues(last, o) && o.read < t.lastCacheRead
  {
    hide NumSeconds;
  }

  lemma FlagOfFirst(o: Observation)
    ensures Observed(Fresh(), o).1 != Some(UnexpectedWrite)
  {
  }

  // ----- every history -----

  predicate Flagged(history: seq<Observation>, j: nat)
    requires j < |history|
  {
    AnomalyAt(history, j) == Some(UnexpectedWrite)
  }

  predicate Uses(o: Observation) {
    o.read > 0 || o.write > 0
  }

  // When a call is flagged, said of the calls alone.

  /** After the first `n` calls the cache counts as warm: some call used it, and nothing since spoke against it. */
  predicate WarmBefore(history: seq<Observation>, n: nat)
    requires n <= |history|
    decreases n, 1
  {
    && n > 0 && !history[n - 1].callType.Compaction? && !Suspect(history, n - 1)
    && (Uses(history[n - 1]) || (n > 1 && WarmBefore(history, n - 1) && Continues(history[n - 2], history[n - 1])))
  }

  /** The call at `j` takes the baseline away: a compaction, a suspect tool loop, or a broken prefix while warm. */
  predicate Clears(history: seq<Observation>, j: nat)
    requires 0 < j < |history|
    decreases j, 3
  {
    || history[j].callType.Compaction?
    || (IsToolLoop(history[j].callType) && Suspect(history, j))
    || (WarmBefore(history, j) && !Continues(history[j - 1], history[j]))
  }

  predicate Cleared(history: seq<Observation>, m: nat, n: nat)
    requires m < n <= |history|
    decreases n, 0
  {
    exists j :: m < j < n && Clears(history, j)
  }

  /** The read that the next calls are held against: that of the latest message, unless it was taken away. */
  function Baseline(history: seq<Observation>, n: nat): nat
    requires n <= |history|
    decreases n, 1
  {
    var m := LatestMessage(history, n);
    if m.Some? && !Cleared(history, m.value, n) then history[m.value].read else 0
  }

  /** The call at `n` comes too late after the one before it, though not so late that no ping was due. */
  predicate PingMissed(history: seq<Observation>, n: nat)
    requires n < |history|
    decreases n, 2
  {
    && n > 0 && WarmBefore(history, n) && Gap(history[n - 1], history[n])
    && NumSeconds(history[n].ts.value - history[n - 1].ts.value) <= DEFAULT_MAX_IDLE_SECS
  }

  /** The tool loop at `n` goes on with the one just before it, which gave no cause for suspicion. */
  predicate GoesOn(history: seq<Observation>, n: nat)
    requires n < |history|
    decreases n, 0
  {
    n > 0 && history[n - 1].callType == history[n].callType && !Suspect(history, n - 1) && !PingMissed(history, n - 1)
  }

  /**
   * The call at `n` reads less than it must, on a warm cache with an unbroken prefix: a
   * message less than the baseline, a tool loop that goes on less than its last step, and one
   * that begins nothing although there is a baseline and it writes.
   */
  predicate Suspect(history: seq<Observation>, n: nat)
    requires n < |history|
    decreases n, 2
  {
    var o := history[n];
    && n > 0 && WarmBefore(history, n) && Continues(history[n - 1], o)
    && if IsToolLoop(o.callType) then
         if GoesOn(history, n) then o.read < history[n - 1].read
         else Baseline(history, n) > 0 && o.read == 0 && o.write > 0
       else o.callType.Message? && o.read < Baseline(history, n)
  }

  /** What the tracker keeps of a tool loop just before. */
  predicate KeepsLoop(t: Tracker, last: Observation, anomalous: bool) {
    && t.lastCallType == Some(last.callType)
    && (IsToolLoop(last.callType) && anomalous ==> t.lastToolLoopKind == None)
    && (IsToolLoop(last.callType) && !anomalous ==>
          t.lastToolLoopKind == Some(last.callType) && t.lastToolLoopCacheRead == last.read)
  }

  predicate StampedBy(t: Tracker, last: Observation) {
    && t.ttlSecs == DEFAULT_TTL_SECS && t.maxIdleSecs == DEFAULT_MAX_IDLE_SECS && !t.ttlExpiredSinceWarm
    && t.lastTs == last.ts && t.lastModel == Some(last.model) && t.lastThinking == Some(last.thinking)
  }

  /** What the tracker holds after the first `n` calls of any history. */
  predicate Holds(t: Tracker, history: seq<Observation>, n: nat)
    requires n <= |history|
  {
    && (n == 0 ==> t == Fresh())
    && (n > 0 ==> StampedBy(t, history[n - 1]))
    && (n > 0 ==> KeepsLoop(t, history[n - 1], Suspect(history, n - 1) || PingMissed(history, n - 1)))
    && (t.state == Warm <==> WarmBefore(history, n))
    && t.lastCacheRead == Baseline(history, n)
  }

  lemma ClearedNext(history: seq<Observation>, m: nat, n: nat)
    requires m < n < |history|
    ensures Cleared(history, m, n + 1) <==> Cleared(history, m, n) || Clears(history, n)
  {
    hide Clears;
  }

  lemma BaselineNext(history: seq<Observation>, n: nat)
    requires n < |history|
    ensures Baseline(history, n + 1) ==
            if history[n].callType.Message? then history[n].read
            else if n > 0 && Clears(history, n) then 0 else Baseline(history, n)
  {
    hide Clears;
    var m := LatestMessage(history, n);
    if m.Some? { ClearedNext(history, m.value, n); }
  }

  /** When a tracker flags a call as an unexpected write. */
  lemma FlagNow(t: Tracker, last: Observation, o: Observation)
    requires StampedBy(t, last)
    ensures Observed(t, o).1 == Some(UnexpectedWrite) <==>
            t.state == Warm && Continues(last, o) && ReadsTooLittle(t, o)
  {
    hide NumSeconds, ReadsTooLittle;
  }

  /** What reading too little means for a tracker that keeps the loop just before. */
  lemma TooLittleNow(t: Tracker, last: Observation, o: Observation, anomalous: bool)
    requires KeepsLoop(t, last, anomalous) && t.state == Warm
    ensures ReadsTooLittle(t, o) <==>
            if IsToolLoop(o.callType) then
              if last.callType == o.callType && !anomalous then o.read < last.read
              else t.lastCacheRead > 0 && o.read == 0 && o.write > 0
            else o.callType.Message? && o.read < t.lastCacheRead
  {
  }

  /** How the state and the message baseline go on. */
  lemma StateNow(t: Tracker, last: Observation, o: Observation)
    requires StampedBy(t, last)
    ensures var (t', anomaly) := Observed(t, o);
            var warm, suspect := t.state == Warm && Continues(last, o), anomaly == Some(UnexpectedWrite);
            && (t'.state == Warm <==> !o.callType.Compaction? && !suspect && (warm || Uses(o)))
            && t'.lastCacheRead ==
                 if o.callType.Message? then o.read
                 else if o.callType.Compaction? || suspect || (t.state == Warm && !warm) then 0 else t.lastCacheRead
    ensures Observed(t, o).1 == Some(UnexpectedWrite) ==> IsToolLoop(o.callType) || o.callType.Message?
  {
    hide NumSeconds;
  }

  /** How the baseline of tool loops goes on. */
  lemma LoopNow(t: Tracker, last: Observation, o: Observation)
    requires StampedBy(t, last)
    ensures var (t', anomaly) := Observed(t, o);
            var missed := t.state == Warm && Gap(last, o) &&
                          NumSeconds(o.ts.value - last.ts.value) <= DEFAULT_MAX_IDLE_SECS;
            StampedBy(t', o) && KeepsLoop(t', o, anomaly == Some(UnexpectedWrite) || missed)
  {
    hide NumSeconds, ReadsTooLittle;
  }

  lemma AfterNext(history: seq<Observation>, n: nat)
    requires n < |history|
    ensures After(history[..n + 1]) == Observed(After(history[..n]), history[n]).0
    ensures Flagged(history, n) <==> Observed(After(history[..n]), history[n]).1 == Some(UnexpectedWrite)
  {
    assert history[..n + 1][..n] == history[..n];
  }

  lemma FirstCall(o: Observation)
    ensures var (t, anomaly) := Observed(Fresh(), o);
            && anomaly != Some(UnexpectedWrite) && StampedBy(t, o) && KeepsLoop(t, o, false)
            && (t.state == Warm <==> !o.callType.Compaction? && Uses(o))
            && t.lastCacheRead == if o.callType.Message? then o.read else 0
  {
  }

  /** If the tracker holds what it should, it flags exactly the suspect calls. */
  lemma FlagsSuspects(history: seq<Observation>, n: nat)
    requires n < |history| && Holds(After(history[..n]), history, n)
    ensures Flagged(history, n) <==> Suspect(history, n)
  {
    var t := After(history[..n]);
    AfterNext(history, n);
    if n == 0 {
      FirstCall(history[0]);
    } else {
      FlagNow(t, history[n - 1], history[n]);
      if t.state == Warm {
        TooLittleNow(t, history[n - 1], history[n], Suspect(history, n - 1) || PingMissed(history, n - 1));
      }
    }
    hide After, Observed, Flagged, Continues, Baseline, PingMissed, WarmBefore, ReadsTooLittle, KeepsLoop, StampedBy;
  }

  lemma HoldsNext(history: seq<Observation>, n: nat)
    requires n < |history| && Holds(After(history[..n]), history, n)
    ensures Holds(After(history[..n + 1]), history, n + 1)
  {
    var t, o := After(history[..n]), history[n];
    AfterNext(history, n);
    FlagsSuspects(history, n);
    BaselineNext(history, n);
    hide After, Observed, Flagged, Continues, Baseline, KeepsLoop, StampedBy, Suspect;
    if n == 0 {
      FirstCall(o);
    } else {
      StateNow(t, history[n - 1], o);
      LoopNow(t, history[n - 1], o);
    }
  }

  lemma {:induction false} HoldsAll(history: seq<Observation>, n: nat)
    requires n <= |history|
    ensures Holds(After(history[..n]), history, n)
  {
    if n == 0 {
      assert history[..0] == [];
    } else {
      HoldsAll(history, n - 1);
      HoldsNext(history, n - 1);
    }
  }

  /**
   * In every history whatever, also after unexpected writes, a call is flagged exactly when
   * the calls before it make it suspect.
   */
  lemma FlaggedIffSuspect(history: seq<Observation>, n: nat)
    requires n < |history|
    ensures Flagged(history, n) <==> Suspect(history, n)
  {
    HoldsAll(history, n);
    FlagsSuspects(history, n);
  }

  /** An hour, and twelve hours, in whole seconds towards zero. */
  lemma GapInSeconds(d: int)
    ensures NumSeconds(d) > DEFAULT_TTL_SECS <==> d >= 3_601 * SECOND
    ensures NumSeconds(d) <= DEFAULT_MAX_IDLE_SECS <==> d < 43_201 * SECOND
  {
  }

  /** The anomalies other than an unexpected write, for a call that is not the first. */
  lemma AnomalyNow(t: Tracker, last: Observation, o: Observation)
    requires StampedBy(t, last) && Observed(t, o).1 != Some(UnexpectedWrite)
    ensures Observed(t, o).1 ==
            if o.callType.Compaction? then None
            else if o.callType.Keepalive? then (if o.read == 0 && o.write > 0 then Some(ColdKeepalive) else None)
            else if t.state == Warm && Gap(last, o) &&
                    NumSeconds(o.ts.value - last.ts.value) <= DEFAULT_MAX_IDLE_SECS then Some(KeepaliveMiss)
            else None
  {
    hide NumSeconds;
  }

  /**
   * What every call of every history is reported as, said of the calls alone: an unexpected
   * write if it is suspect; a cold keepalive exactly if it is a keepalive that read nothing and
   * wrote; a missed keepalive exactly if it is neither keepalive nor compaction and follows a
   * call that left the cache warm after more than an hour, but within twelve; else nothing.
   */
  lemma ReportedAs(history: seq<Observation>, n: nat)
    requires n < |history|
    ensures var o := history[n];
            && (AnomalyAt(history, n) == Some(UnexpectedWrite) <==> Suspect(history, n))
            && (AnomalyAt(history, n) == Some(ColdKeepalive) <==> o.callType == Keepalive && o.read == 0 && o.write > 0)
            && (AnomalyAt(history, n) == Some(KeepaliveMiss) <==>
                  && o.callType !in {Keepalive, Compaction} && n > 0 && WarmBefore(history, n)
                  && o.ts.Some? && history[n - 1].ts.Some?
                  && 3_601 * SECOND <= o.ts.value - history[n - 1].ts.value < 43_201 * SECOND)
  {
    var t, o := After(history[..n]), history[n];
    FlaggedIffSuspect(history, n);
    HoldsAll(history, n);
    if n == 0 {
      assert history[..0] == [];
      FirstReport(o);
    } else {
      var last := history[n - 1];
      if o.ts.Some? && last.ts.Some? { GapInSeconds(o.ts.value - last.ts.value); }
      if Suspect(history, n) { SuspectIsNoGap(history, n); }
      hide After, Observed, Suspect, WarmBefore, Baseline, KeepsLoop, NumSeconds;
      if !Suspect(history, n) { AnomalyNow(t, last, o); }
    }
  }

  lemma FirstReport(o: Observation)
    ensures Observed(Fresh(), o).1 ==
            if o.callType.Keepalive? && o.read == 0 && o.write > 0 then Some(ColdKeepalive) else None
  {
  }

  lemma SuspectIsNoGap(history: seq<Observation>, n: nat)
    requires 0 < n < |history| && Suspect(history, n)
    ensures !Gap(history[n - 1], history[n])
    ensures history[n].callType.Message? || history[n].callType.ToolLoop? || history[n].callType.HeartbeatToolLoop?
  {
  }

  /** The two kinds of tool loop are held against their own last step, and each against its own kind only. */
  lemma LoopsAreHeldTogether(first: Observation, second: Observation)
    requires first.callType in {ToolLoop, HeartbeatToolLoop} && second.callType in {ToolLoop, HeartbeatToolLoop}
    requires Uses(first) && Continues(first, second)
    ensures AnomalyAt([first, second], 1) == Some(UnexpectedWrite) <==>
              first.callType == second.callType && second.read < first.read
  {
    var history := [first, second];
    FlaggedIffSuspect(history, 1);
    assert LatestMessage(history, 1) == None;
    assert Baseline(history, 1) == 0;
    assert WarmBefore(history, 1);
  }

  /**
   * After an unexpected write the agreement ends: the flagged message leaves the tracker
   * cold with a baseline, and a cold tracker is not invalidated. Here a call on another
   * model warms it again and a later message is flagged against the stale baseline.
   */
  lemma StaleBaselineAfterUnexpectedWrite()
    ensures var msg := (at: int, model: string, read: nat) =>
              Observation(Some(at * SECOND), model, false, read, 1, CallType.Message);
            var history := [msg(0, "a", 100), msg(1, "a", 50), msg(2, "b", 40).(callType := Heartbeat),
                            msg(3, "b", 30)];
            && AnomalyAt(history, 1) == Some(UnexpectedWrite)
            && AnomalyAt(history, 3) == Some(UnexpectedWrite)
            && !ReadDropped(history, 3)
  {
    var msg := (at: int, model: string, read: nat) =>
      Observation(Some(at * SECOND), model, false, read, 1, CallType.Message);
    var o0, o1, o2, o3 := msg(0, "a", 100), msg(1, "a", 50), msg(2, "b", 40).(callType := Heartbeat), msg(3, "b", 30);
    var history := [o0, o1, o2, o3];
    var t1 := Observed(Fresh(), o0).0;
    var t2 := Observed(t1, o1).0;
    var t3 := Observed(t2, o2).0;
    assert history[..0] == [];
    assert history[..1] == [o0] && [o0][..0] == [];
    assert history[..2] == [o0, o1] && [o0, o1][..1] == [o0];
    assert history[..3] == [o0, o1, o2] && [o0, o1, o2][..2] == [o0, o1];
    assert After([o0]) == t1;
    assert After([o0, o1]) == t2;
    assert After([o0, o1, o2]) == t3;
    assert t2.state == Cold && t2.lastCacheRead == 50;
    assert t3.state == Warm && t3.lastCacheRead == 50;
    assert !Continues(o1, o2);
    assert LatestMessage(history, 3) == Some(1);
  }

  /**
   * And it ends the other way too: a flagged tool loop takes the baseline away, and a message
   * that reads less than the one before is not flagged.
   */
  lemma DropUnseenAfterFlaggedToolLoop()
    ensures var call := (at: int, callType: CallType, read: nat) =>
              Observation(Some(at * SECOND), "a", false, read, 1, callType);
            var history := [call(0, CallType.Message, 100), call(1, ToolLoop, 0), call(2, CallType.Message, 50)];
            Flagged(history, 1) && ReadDropped(history, 2) && !Flagged(history, 2)
  {
    var call := (at: int, callType: CallType, read: nat) =>
      Observation(Some(at * SECOND), "a", false, read, 1, callType);
    var o0, o1, o2 := call(0, CallType.Message, 100), call(1, ToolLoop, 0), call(2, CallType.Message, 50);
    var history := [o0, o1, o2];
    var t1 := Observed(Fresh(), o0).0;
    assert history[..0] == [];
    assert history[..1] == [o0] && [o0][..0] == [];
    assert After([o0]) == t1;
    assert Observed(t1, o1).1 == Some(UnexpectedWrite);
    assert LatestMessage(history, 2) == Some(0);
    FlaggedIffSuspect(history, 1);
    assert Clears(history, 1);
    assert Cleared(history, 0, 2);
    FlaggedIffSuspect(history, 2);
    assert Continues(o0, o1) && Continues(o1, o2);
    assert UnbrokenFrom(history, 0, 2);
  }
}
