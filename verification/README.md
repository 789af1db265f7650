# Verified model of the Shore daemon's state-keeping cores

Shore's daemon talks to language models on behalf of long-lived characters. Several of its
parts keep state that must stay right over days of running: what was spent, what the
provider has cached, what was sent, what is stored. This project models those parts in Dafny
and proves what they are for. `dafny verify dfyconfig.toml` checks everything.

Conventions of the model: instants are integers in nanoseconds, costs are reals, names are
strings, tables are sequences of rows. What the program is told from outside (query
failures, races, aborts, what the provider reports, when an I/O error strikes) is a
parameter, and theorems hold for all its values. Objects that the program updates in place
are classes here; each method is tied to a function of the old state, and the theorems over
whole runs are about those functions.

## What is modelled

**Usage budgets** (`Calendar`, `BudgetWindow`, `LocalTime`, `ClockShifts`, `Query`, `Budget`, `BudgetRuns`,
`BudgetWarnings`, `LedgerClient`). A budget sums ledger rows since the start of a calendar
window with a reset hour, weekday or day of the month. The gate reads that sum before a call;
the cost is written after it. The main results: windows tile time, also through skipped and
repeated hours of local time, with the exact condition on a clock's shifts; which calls the gate
lets through, by action and kind; it covers every call whose row the compiled WHERE clause
counts; in every interleaving the overshoot is below *k* calls' cost, and that bound is
reached; each warning threshold is announced once per window,
unless the check that recorded it failed half-way.

**Prompt cache** (`CacheTracker`, `CacheKeepalive`, `KeepaliveSchedule`, `KeepaliveAgreement`). The tracker judges
each recorded call, the keepalive decides when to ping, and neither knows the other. The main
results: a message is flagged exactly when it reads below the baseline its history has left;
exactly when the keepalive pings, by the events alone: never past its idle maximum, nor a cold
cache unless an invalidation
comes between a ping and its outcome, and the number of its pings is bounded; run side by
side, with calls that take time and pings that fail, the two agree until the keepalive stops
on purpose, if intervals, retries and calls fit into the TTL.

**Streams** (`SidecarPump`, `Stream`, `StreamOutcome`, `StreamRoundTrip`, `StreamBlocks`,
`StreamSignatures`). The sidecar races provider events against heartbeats; the daemon's consumer
assembles content blocks from deltas and shows them to the client. The main results: heartbeats
are invisible end to end for every schedule; the client reads exactly the text and the thinking
that arrived; announced blocks come back, exactly when no two neighbours merge; from any events
whatever no content is lost, and the blocks are the runs of deltas that are not empty.

**Conversations** (`Conversation`, `Sanitize`, `ThinkingStrip`). Sanitizing yields the
greatest part of a conversation without orphaned tool blocks. Stripping earlier thinking
changes each message's wire form at most once as the history grows.

**Stores and the rest** (`CallStore`, `Templates`, `Supervisor`, `EffectiveCatalog`).
Rotation by a window sum equals evicting row by row. Template sync overwrites only what the
daemon wrote. A supervised child is started at most 4*s* + 5 times with *s* stable runs.
Listed model names resolve back.

## Where the code differs from what is said of it

- Two usage kinds a budget may name, `message` and `tool_loop`, are never recorded: such a
  budget gates calls but sums nothing (`Budget.GateMatchesOnlyCounted`).
- A row exactly on a window boundary counts in the current and in the previous window of
  spike detection, since `until` is inclusive (`Budget.SpikeSums`).
- `now` can fall outside its own window when the clock shifts. One-hour shifts on full hours
  are safe (`LocalTime.LocalWindowsTile`); half-hour shifts and shifts of two hours need not
  be (`LocalTime.HalfHourShiftLosesNow`, `ClockShifts.HalfHourBackLosesNow`,
  `ClockShifts.TwoHourShiftLosesNow`). On a clock that skips no whole window it happens
  exactly if some shift that changes the window goes back, or arrives neither at the reset
  nor one hour past a reset that is never shown, nor at the instant that reads like the reset
  in UTC when neither it nor the hour after it is shown (`ClockShifts.ContainsIffSoundShifts`);
  `ClockShifts.ContainsIffSoundEntries` is the condition for every clock.
- After an unexpected write the tracker's flags no longer follow the plain rule. A flagged
  message leaves a baseline that resets do not clear until the next call that uses the cache
  (`CacheTracker.StaleBaselineAfterUnexpectedWrite`); a flagged tool loop takes the baseline
  away, so that a drop goes unseen (`CacheTracker.DropUnseenAfterFlaggedToolLoop`). The rule
  for every call of every history is `CacheTracker.FlaggedIffSuspect`.
- A missed keepalive is reported although the keepalive stopped on purpose, whenever the gap
  is over the TTL and within twelve hours (`KeepaliveAgreement.MissAfterStop`).
- Turning the keepalive off does not stop it while a ping is under way: if that ping fails, it
  is retried (`KeepaliveSchedule.FailurePingsWhileOff`; exactly when,
  `KeepaliveSchedule.PingWhileOffIff`).
- An outcome reported after an invalidation sets a timer on a cold cache
  (`CacheKeepalive.OutcomeAfterInvalidationPings`; exactly when, `CacheKeepalive.ColdTimerIff`).
  The daemon as it is never reports an invalidation.
- An empty delta can split a text in two blocks (`StreamRoundTrip.EmptyDeltaSplitsText`;
  exactly when, `StreamBlocks.EmptyDeltasMatterIffTheySplit`), and an empty text delta can
  keep a signature from the thinking before it (`StreamSignatures.EmptyTextKeepsSignatureAway`;
  exactly when, `StreamSignatures.EmptyDeltasMatterWithSignatures`).
- Sanitizing drops messages whose content list was empty before, exactly if there is any
  orphan (`Sanitize.MessageSurvives`), which its documentation does not mention.
- A template written by a sync that stopped before saving the manifest is never updated
  again (`Templates.InterruptedWriteIsAbandoned`).
- `LedgerStream::finalize` does not look at its flag; every further call would write a further
  row (`LedgerClient.FinalizeAll`).
- A check of the budgets that fails half-way has recorded thresholds that it never announces,
  nor does any later check (`BudgetWarnings.FailureLosesWarning`; exactly when,
  `BudgetWarnings.AnnouncedExactlyOnce`).

## Model

| member | source | states |
|---|---|---|
| Calendar.CivilInverts | backend/ledger/src/budget.rs:605-710 | year, month and day correspond one to one to day numbers, so the naive dates the windows are built from are the civil calendar |
| Calendar.InMonth | backend/ledger/src/budget.rs:605-710 | a day number lies in a month exactly when it is between that month's first and last day |
| Calendar.NextMonthStarts | backend/ledger/src/budget.rs:701-710 | the first of the next month, over New Year too, comes right after the last day of the month |
| Calendar.KnownDates | backend/ledger/src/budget.rs:605-710 | two known dates and weekdays fix the calendar's epoch and leap rule |
| BudgetWindow.DaysInMonthIsTable | backend/ledger/src/budget.rs:701-710 | the month length got by stepping back a day from the next first equals the textbook table, leap years included |
| BudgetWindow.AnchorDateResets | backend/ledger/src/budget.rs:682-694 | the clamped anchor of a month is a reset date of that month |
| BudgetWindow.OneResetDateAMonth | backend/ledger/src/budget.rs:682-694 | and it is the only reset date of the month |
| BudgetWindow.StartIsLatestReset | backend/ledger/src/budget.rs:605-657 | for every period and anchor the computed start is the latest reset not after now |
| BudgetWindow.EndIsNextReset | backend/ledger/src/budget.rs:659-680 | from a reset the computed end is the very next reset |
| BudgetWindow.WindowsTile | backend/ledger/src/budget.rs:562-587 | start <= now < end; every instant of the window computes the same start; the window at end starts at end |
| BudgetWindow.PreviousWindowAbuts | backend/ledger/src/budget.rs:177-200 | the window found from one second before the current start ends exactly at the current start |
| BudgetWindow.ResetsAreOnTheHour | backend/ledger/src/budget.rs:605-699 | starts and ends fall on whole hours, so hourly shifts cannot cut one |
| BudgetWindow.DefaultResets | backend/ledger/src/budget.rs:528-546 | without anchors windows start at midnight, on Mondays, and on the first of the month |
| LocalTime.HoursIncrease | backend/ledger/src/budget.rs:712-725 | on a clock with whole-hour shifts the local hour never goes back, although the minutes may |
| LocalTime.ResolvesToFirst | backend/ledger/src/budget.rs:712-725 | a full local hour, shown once, twice or never, resolves to the instant from which on the clock shows it or later |
| LocalTime.LocalWindowsTile | backend/ledger/src/budget.rs:589-603 | the resolved windows still contain now, agree within, and abut, across gaps and repeated hours |
| LocalTime.ResolvesToFirstIff | backend/ledger/src/budget.rs:712-725 | for a reading that the clock reaches once, on any clock, the exact condition under which it resolves to the instant that reaches it |
| LocalTime.PreviousLocalWindowAbuts | backend/ledger/src/budget.rs:177-192 | in local time too, the window found from one second before the current start ends exactly at the current start |
| ClockShifts.ResolvesBy | backend/ledger/src/budget.rs:712-725 | when a reading resolves to an instant or earlier, said by what the clock shows |
| ClockShifts.ContainsIffSoundEntries | backend/ledger/src/budget.rs:589-603 | on every clock, all instants lie in their resolved windows exactly if wherever the clock enters another window the new one has begun by then and the old one not ended before |
| ClockShifts.ContainsIffFirstReached | backend/ledger/src/budget.rs:589-603 | on every clock that skips no whole window, exactly if every reset resolves to the instant from which on, and not before, it is passed |
| ClockShifts.ContainsIffSoundShifts | backend/ledger/src/budget.rs:589-603 | the same, exactly if every shift that changes the window goes forward, to the reset, or to an hour past a reset never shown, or at the reset's reading in UTC with neither ever shown |
| ClockShifts.FirstReachedContains | backend/ledger/src/budget.rs:589-603 | on every clock, resets that resolve so keep all instants in their windows |
| ClockShifts.TwoHourShiftLosesNow | backend/ledger/src/budget.rs:712-725 | a concrete two-hour jump after which the window does not contain now |
| ClockShifts.HalfHourBackLosesNow | backend/ledger/src/budget.rs:712-725 | a concrete half-hour setback at which the window has already ended |
| ClockShifts.SkippedWindowDoesNoHarm | backend/ledger/src/budget.rs:712-725 | a clock that skips a whole window and loses no instant although a reset resolves late, so that hypothesis is needed |
| LocalTime.HalfHourShiftLosesNow | backend/ledger/src/budget.rs:712-725 | a concrete half-hour jump after which the window does not contain now |
| Query.AppendClause | backend/ledger/src/query.rs:30-90 | adding a clause and its values leaves the meaning of the earlier clauses as it was |
| Query.KindAmong | backend/ledger/src/query.rs:21-28 | the IN clause over the usage-kind expression selects rows whose kind is in the list |
| Query.SatisfiesByColumn | backend/ledger/src/query.rs:30-86 | a filter is the conjunction of what it asks of each column |
| Query.BuildWhere | backend/ledger/src/query.rs:30-86 | for every combination of fields the compiled clause selects exactly the rows satisfying the filter, with one bound value for each placeholder in order |
| Query.PushCompare | backend/ledger/src/query.rs:34-66 | an absent field adds no clause, a present one a comparison bound to its value |
| Query.PushUsageKinds | backend/ledger/src/query.rs:67-90 | a list of kinds adds one IN clause with a placeholder for each kind |
| Query.UsageTotals | backend/ledger/src/query.rs:117-143 | the summed cost is that of the rows the filter selects |
| Budget.EnforceBudgetForCall | backend/ledger/src/budget.rs:126-170 | a call passes exactly when no budget blocks it; otherwise the error names the first that does and its spend; failing queries are passed over |
| Budget.LetThroughIff | backend/ledger/src/budget.rs:496-532 | by action and kind of call: a call is let through exactly if every budget over its limit only warns, or pauses background calls while this is a message, tool loop or subagent, or exempts compactions while this is one |
| Budget.CostIsReportedFirst | backend/ledger/src/client.rs:205-262 | the cost on record is the provider's total, else the estimate, else none; nothing for the flat-rate provider |
| Budget.RestrictionsDecide | backend/ledger/src/budget.rs:440-480 | a call that differs from a budget in any of the five columns is neither gated nor counted; without restriction by usage kind all others are gated, and counted from the window's start on |
| Budget.KindOfRow | backend/ledger/src/budget.rs:483-498 | whatever finish reason a call ends with, its row's usage kind is one the gate matches it to |
| Budget.ScopeOfRow | backend/ledger/src/budget.rs:406-417 | the budget's filter selects a call's row exactly when time, scope and kind agree |
| Budget.GateCoversCounted | backend/ledger/src/budget.rs:440-498 | if the compiled clause selects the row of a call, the gate had matched that call |
| Budget.GateMatchesOnlyCounted | backend/ledger/src/budget.rs:440-498 | the converse, exactly: a matched call can leave a counted row unless only a never-recorded kind matched it |
| Budget.SubscriptionIsFree | backend/ledger/src/client.rs:184-261 | subscription calls pass the gate whatever the budgets and rows, and their own rows cost nothing |
| Budget.SpikeSums | backend/ledger/src/budget.rs:177-256 | current plus previous spend counts every row since the previous start once, and boundary rows twice |
| BudgetRuns.BlockIsEnforced | backend/ledger/src/budget.rs:500-530 | a blocking budget without the compaction exemption applies to every call it matches |
| BudgetRuns.WindowMovesOn | backend/ledger/src/budget.rs:562-603 | as the clock goes on, the window stays or moves to one that starts in the future of the earlier instant |
| BudgetRuns.CountsFromReset | backend/ledger/src/budget.rs:562-603 | on the configured clock, UTC or local, a budget counts from the instant from which on its latest reset is shown or passed |
| BudgetRuns.WaitKeepsBound | backend/ledger/src/budget.rs:126-170 | letting time pass, over window ends too, keeps spend plus outstanding calls below the bound |
| BudgetRuns.AdmitKeepsBound | backend/ledger/src/client.rs:380-425 | admitting a call keeps it, because the gate saw the limit not yet reached; queries of other budgets may fail |
| BudgetRuns.RecordKeepsBound | backend/ledger/src/client.rs:269-331 | recording a call keeps it: what is added to spend leaves the outstanding calls, in whichever window it lands |
| BudgetRuns.OvershootBound | backend/ledger/src/budget.rs:126-170 | in every interleaving with at most k metered calls in flight and costs in [0, cmax], spend of an enforced budget whose own queries succeed stays below limit + k * cmax |
| BudgetRuns.OvershootIsReached | backend/ledger/src/client.rs:477-555 | for any budget that alone matches a call and counts its finished turns, from every idle state k concurrent calls do add k * cmax, so the bound cannot be improved |
| BudgetWarnings.StatusReportsCrossed | backend/ledger/src/budget.rs:357-404 | a configured threshold is reported as crossed exactly when that share of the limit is spent |
| BudgetWarnings.StatusIsOver | backend/ledger/src/budget.rs:357-404 | a status is over its limit exactly if the limit is spent, and so is a threshold of 1.0 crossed |
| BudgetWarnings.CrossedInOrder | backend/ledger/src/budget.rs:357-404 | crossed thresholds are listed in ascending order, none within rounding error of another |
| BudgetWarnings.KeyIsNearest | backend/ledger/src/budget.rs:334-355 | a threshold is stored as the nearest number of millionths, ties to even, so that thresholds further apart are told apart |
| BudgetWarnings.DedupKeeps | backend/ledger/src/budget.rs:357-404 | sorting and deduplication lose no threshold that differs from the others by more than rounding error |
| BudgetWarnings.WarningLedger.RecordBudgetWarningThreshold | backend/ledger/src/budget.rs:334-355 | the row is inserted once and the result says whether it was new; a failing insert changes nothing |
| BudgetWarnings.WarningLedger.RecordCrossed | backend/ledger/src/budget.rs:266-280 | all crossed thresholds of a status are recorded and the new ones returned in order; at a failing insert those before it stay recorded |
| BudgetWarnings.WarningLedger.NewlyCrossedBudgetWarnings | backend/ledger/src/budget.rs:258-313 | the events and the new table are those of one check; a check that fails at any insert returns no event and keeps exactly the inserts before it |
| BudgetWarnings.CheckOnce | backend/ledger/src/budget.rs:258-309 | for every threshold, 1.0 included, one check announces it once if it is crossed and was not on record, and records it; the rest are repeats of 1.0 |
| BudgetWarnings.AnnouncedExactlyOnce | backend/ledger/src/budget.rs:258-350 | over every run of checks, finished or failed at any insert, every threshold of a window is announced exactly once if it became recorded and not by a failed check, else never; 1.0 besides once for each finished check over the limit with nothing new |
| BudgetWarnings.FailureLosesWarning | backend/ledger/src/budget.rs:266-280 | a failed check repeated: 0.8 is on record and never announced |
| BudgetWarnings.NothingNew | backend/ledger/src/budget.rs:266-288 | nothing is new exactly if everything crossed is on record |
| BudgetWarnings.OverLimitAlwaysAnnounced | backend/ledger/src/budget.rs:286-309 | every check made over the limit returns an event for that budget and window |
| BudgetWarnings.OverspentIsAnnounced | backend/ledger/src/budget.rs:258-404 | so does every check made once the limit is spent |
| BudgetWarnings.QuietBelowLimit | backend/ledger/src/budget.rs:258-309 | below the limit a check announces nothing that is on record |
| BudgetWarnings.EventsInOrder | backend/ledger/src/budget.rs:258-313 | events come in the order of the budgets, at most one for each, with thresholds ascending |
| LedgerClient.LedgerStream.Finalize | backend/ledger/src/stream.rs:115-118 | writes the call's row and sets the flag |
| LedgerClient.LedgerStream.FinalizeError | backend/ledger/src/stream.rs:128-142 | writes an error row, with usage only if the provider had reported some |
| LedgerClient.LedgerStream.Drop | backend/ledger/src/stream.rs:149-175 | writes a cancelled row only if nothing was finalized before |
| LedgerClient.FinalizeAll | backend/ledger/src/stream.rs:115-175 | any list of finalizations, with results or errors, writes a row each, and the drop one only if there was none |
| LedgerClient.UseStream | backend/ledger/src/stream.rs:90-175 | a stream used up in any of the three ways leaves exactly one row, and is one Record step of the runs |
| LedgerClient.EnforceUsageBudget | backend/ledger/src/client.rs:380-425 | whatever budgets' queries fail, a call over budget changes nothing and any other is an Admit step |
| LedgerClient.OpenStream | backend/ledger/src/client.rs:735-767 | an open stream leaves the ledger alone; a failed transport is a Lose step, whatever came between |
| LedgerClient.StreamRaw | backend/ledger/src/client.rs:699-767 | both together: Admit, and Lose if the transport fails |
| LedgerClient.GenerateReplied | backend/ledger/src/client.rs:510-555 | the reply to a call let through earlier is a Record step and a failed request a Lose step, after any other steps |
| LedgerClient.UnbilledEndingsAreFree | backend/ledger/src/stream.rs:128-175 | endings without reported usage leave a row, marked so, that costs nothing |
| LedgerClient.BilledErrorsCount | backend/ledger/src/stream.rs:128-142 | an error that comes with usage costs what was reported, else the estimate |
| CacheTracker.CacheTracker.Observe | backend/ledger/src/cache_tracker.rs:151-311 | the six steps on the fields equal one transition of the tracker, anomaly included |
| CacheTracker.CacheTracker.ObserveWarmCache | backend/ledger/src/cache_tracker.rs:319-354 | how a warm tracker judges a read against the baseline of the call's kind |
| CacheTracker.CacheTracker.InvalidateIfStale | backend/ledger/src/cache_tracker.rs:186-221 | expiry, model change and thinking toggle, each only while still warm |
| CacheTracker.CacheTracker.Evaluate | backend/ledger/src/cache_tracker.rs:223-275 | the read is judged, then a missed keepalive, then a cold one |
| CacheTracker.CacheTracker.UpdateBaselines | backend/ledger/src/cache_tracker.rs:277-295 | which baselines the call leaves behind |
| CacheTracker.StampOf | backend/ledger/src/cache_tracker.rs:313-317 | every observation leaves its own time, model and setting, and a cold tracker without baseline stays so |
| CacheTracker.RemembersNext | backend/ledger/src/cache_tracker.rs:151-311 | the tracker's baseline is the read of the latest message since which nothing invalidated the cache; one more call keeps that true |
| CacheTracker.RemembersAll | backend/ledger/src/cache_tracker.rs:151-311 | the same over every run up to the first unexpected write |
| CacheTracker.FlaggedIffReadDropped | backend/ledger/src/cache_tracker.rs:319-354 | up to and including the first unexpected write, a message is flagged exactly when the latest earlier message read more and nothing invalidated the cache since |
| CacheTracker.HoldsAll | backend/ledger/src/cache_tracker.rs:151-311 | in every history the tracker's state, message baseline and tool-loop baseline are those that the calls have left, said of the calls alone |
| CacheTracker.FlaggedIffSuspect | backend/ledger/src/cache_tracker.rs:151-354 | in every history, also after unexpected writes, a call of any kind is flagged exactly when the calls alone make it suspect: on a warm cache with an unbroken prefix, a message below the baseline, a tool loop below its last step, or one that starts with a bare write despite a baseline |
| CacheTracker.ReportedAs | backend/ledger/src/cache_tracker.rs:151-275 | what every call of every history is reported as: a cold keepalive exactly if it is a keepalive that read nothing and wrote, a missed keepalive exactly in the stated gap, an unexpected write exactly if suspect |
| CacheTracker.GapInSeconds | backend/ledger/src/cache_tracker.rs:186-259 | over the TTL is from 3601 seconds on, within the idle maximum below 43201 |
| CacheTracker.LoopsAreHeldTogether | backend/ledger/src/cache_tracker.rs:319-365 | a step of either kind of tool loop is flagged exactly if it reads less than the step of its own kind before it |
| CacheTracker.StaleBaselineAfterUnexpectedWrite | backend/ledger/src/cache_tracker.rs:186-354 | a concrete run after a flagged message with a flag but no drop |
| CacheTracker.DropUnseenAfterFlaggedToolLoop | backend/ledger/src/cache_tracker.rs:319-354 | a concrete run after a flagged tool loop with a drop but no flag |
| CacheKeepalive.RetryDelay | backend/daemon/src/cache_keepalive.rs:62-66 | the backoff is between 30 seconds and 15 minutes |
| CacheKeepalive.RetryDelayDoubles | backend/daemon/src/cache_keepalive.rs:62-66 | it starts at 30 seconds, doubles with each failure up to the cap, and never decreases |
| CacheKeepalive.CacheKeepalive.SetInterval | backend/daemon/src/cache_keepalive.rs:99-120 | the new timer state, also when off, unchanged or cold |
| CacheKeepalive.CacheKeepalive.OnCacheWarmed | backend/daemon/src/cache_keepalive.rs:122-139 | the new timer state; another model's call is ignored |
| CacheKeepalive.CacheKeepalive.OnPingSucceeded | backend/daemon/src/cache_keepalive.rs:141-150 | the new timer state; the idle clock is not reset |
| CacheKeepalive.CacheKeepalive.OnPingFailed | backend/daemon/src/cache_keepalive.rs:199-203 | the new timer state, with one failure more |
| CacheKeepalive.CacheKeepalive.OnCacheInvalidated | backend/daemon/src/cache_keepalive.rs:152-160 | the timer and the idle clock are cleared |
| CacheKeepalive.CacheKeepalive.Tick | backend/daemon/src/cache_keepalive.rs:174-197 | pings exactly when due and not idle too long, and the new timer state |
| CacheKeepalive.IdleClock | backend/daemon/src/cache_keepalive.rs:122-160 | in every run the idle clock is the time of the last warm call since the last invalidation |
| CacheKeepalive.NoPingPastMaxIdle | backend/daemon/src/cache_keepalive.rs:174-197 | in every run a ping comes less than the idle maximum after that call |
| CacheKeepalive.PendingMeans | backend/daemon/src/autonomy/manager.rs:1408-1467 | what it means that the outcome of a ping is awaited, whatever other events come meanwhile |
| CacheKeepalive.ColdTimerIff | backend/daemon/src/cache_keepalive.rs:99-203 | a cold cache has a timer exactly if an outcome set one and nothing cleared it since |
| CacheKeepalive.ColdPingIff | backend/daemon/src/cache_keepalive.rs:141-203 | exactly when a cold cache is pinged |
| CacheKeepalive.NoPingOnColdCache | backend/daemon/src/cache_keepalive.rs:99-203 | if no invalidation comes between a ping and its outcome, whatever else does, no ping occurs before the first warm call or between invalidation and the next |
| CacheKeepalive.OutcomeAfterInvalidationPings | backend/daemon/src/cache_keepalive.rs:141-160 | without that protocol a cold cache is pinged, past any idle maximum |
| CacheKeepalive.PacedThroughout | backend/daemon/src/cache_keepalive.rs:99-203 | between any two events, the pings since the last warm call times min(interval, 30 s) fit into the time since that call, and the next one into the time until it is due |
| CacheKeepalive.SpendBound | backend/daemon/src/cache_keepalive.rs:99-203 | the number n of pings since the last warm call satisfies n * min(interval, 30 s) < idle maximum, if one ping is answered before the next and no invalidation comes between; calls and configurations may |
| KeepaliveSchedule.AlwaysOnSchedule | backend/daemon/src/cache_keepalive.rs:99-203 | after every run the timer is the one that the events alone call for: interval, model, warmth, failures in a row and due time |
| KeepaliveSchedule.PingIff | backend/daemon/src/cache_keepalive.rs:99-203 | over every run a ping is sent exactly at a kept tick at which one is due by the latest event that decides, before the idle maximum |
| KeepaliveSchedule.PingAfterChange | backend/daemon/src/cache_keepalive.rs:99-120 | after a changed interval pings come at kept ticks from exactly the new interval after the last warm call on, and at no others |
| KeepaliveSchedule.PingWhileOffIff | backend/daemon/src/cache_keepalive.rs:99-120 | while turned off, pings come exactly after the delay of a failed ping reported since |
| KeepaliveSchedule.NoPingWhileOff | backend/daemon/src/cache_keepalive.rs:99-120 | under the outcome protocol none comes if no ping was awaited when pings were turned off |
| KeepaliveSchedule.FailurePingsWhileOff | backend/daemon/src/cache_keepalive.rs:199-203 | otherwise the failure of that ping starts the pings again, though turned off |
| KeepaliveAgreement.RetriesTakeTime | backend/daemon/src/cache_keepalive.rs:199-203 | retries cannot fit the TTL in such numbers that the failure counter saturates |
| KeepaliveAgreement.StepStaysInStep | backend/daemon/src/autonomy/manager.rs:606-627 | one event, be it a warm call announced or reported, a record, a tick, or a ping recorded, confirmed or failed, keeps timer and tracker in step: the next use of the kept cache comes within the TTL of the last, or pinging has stopped |
| KeepaliveAgreement.AlwaysInStep | backend/daemon/src/cache_keepalive.rs:99-203 | so does every run |
| KeepaliveAgreement.KeepaliveSatisfiesTracker | backend/ledger/src/cache_tracker.rs:186-275 | if interval, retries, tick gap and call time fit into the TTL, no ping is flagged cold, and no call of any model up to the idle maximum is flagged as a missed keepalive, with calls recorded long after they are announced or never announced, and pings that fail |
| KeepaliveAgreement.DefaultsFit | backend/daemon/src/cache_keepalive.rs:29-32 | with the 55-minute interval and ticks ten seconds apart that fits exactly if calls take at most 290 seconds, or a third of 250 if one ping may fail |
| KeepaliveAgreement.TrackerFollowsCalls | backend/ledger/src/cache_tracker.rs:151-311 | in every run of the two side by side the tracker is the one that has observed just the calls |
| KeepaliveAgreement.MissAfterStop | backend/ledger/src/cache_tracker.rs:234-259 | after every run, a call other than a ping is flagged as a missed keepalive exactly when it is no compaction, the calls before it leave the cache warm and the time since the last of them is over the TTL but within twelve hours |
| KeepaliveAgreement.DeliberateStopIsFlagged | backend/ledger/src/cache_tracker.rs:234-259 | a possible run that is flagged although the keepalive stopped on purpose |
| Stream.ConsumeState.FlushTextBuffer | backend/llm/src/stream.rs:228-236 | buffered text becomes one block, or nothing if empty |
| Stream.ConsumeState.FlushThinkingBuffer | backend/llm/src/stream.rs:238-247 | buffered thinking and its signature become one block, or nothing if empty |
| Stream.ConsumeState.Accumulate | backend/llm/src/stream.rs:85-223 | each event's effect on buffers, blocks and tool uses |
| Stream.ConsumeState.FinishStream | backend/llm/src/stream.rs:249-283 | the result made of the flushed buffers and the terminal event |
| Stream.StreamConsumer.Consume | backend/llm/src/stream.rs:39-223 | reads up to the first terminal event, malformed line or read failure; the result is that of the specification, and the client is sent one frame for each opening, text and thinking before that line, in order, text as text and thinking as thinking, and no other |
| Stream.ShowsHeard | backend/llm/src/stream.rs:91-223 | the same of the specification, over all lines |
| StreamOutcome.EndDecides | backend/llm/src/stream.rs:39-283 | the first line that ends the reading decides the result, whatever follows; a `done` event hands on its content, reason and usage with the blocks and tool calls before it |
| StreamOutcome.ClientReads | backend/llm/src/stream.rs:91-223 | over all lines the texts shown, joined, are those of the events before that line, for text and for thinking |
| Stream.PingsAreIgnored | backend/llm/src/stream.rs:170-199 | heartbeats anywhere change neither the result nor what the client sees |
| Stream.IncompleteIffNoTerminal | backend/llm/src/stream.rs:39-83 | proper events end as an incomplete stream exactly when none is terminal |
| SidecarPump.RaceNext | backend/llm-sidecar/src/server.ts:207-222 | the pending result is raced again after each heartbeat, which is written; no result is dropped or taken twice |
| SidecarPump.Pump | backend/llm-sidecar/src/server.ts:195-234 | for every schedule of races exactly what is written and whether the stream is closed: a prefix of the provider's events with heartbeats inserted; each race up to the abort or the last result wrote its event, also if aborted meanwhile, or its heartbeat |
| SidecarPump.RestMeans | backend/llm-sidecar/src/server.ts:207-234 | the same of the specification |
| SidecarPump.InsertedOnlyPings | backend/llm-sidecar/src/server.ts:195-234 | apart from heartbeats nothing is added, lost or reordered |
| SidecarPump.PumpedIsConsumedAlike | backend/llm-sidecar/src/server.ts:195-234 | whatever the pump writes is consumed like a prefix of the provider's events |
| SidecarPump.Relay | backend/llm-sidecar/src/server.ts:195-234 | end to end: without abort the result is that of all events; after an abort or iterator failure it is that of a prefix; the client is shown the texts of those events |
| SidecarPump.PrefixTerminals | backend/llm/src/stream.rs:39-83 | such a prefix gives an incomplete stream unless it holds the terminal event |
| StreamRoundTrip.ConsumedIsFold | backend/llm/src/stream.rs:39-283 | what the consumer delivers is the fold of the events up to the terminal one |
| StreamRoundTrip.RoundTrip | backend/llm/src/stream.rs:91-283 | blocks announced in any non-empty chunking, after `start` events or none, are rebuilt up to merging neighbours; exactly as they were if and only if no neighbours merge |
| StreamRoundTrip.CoalesceShortens | backend/llm/src/stream.rs:126-146 | merging loses a block exactly when two neighbours are of one mergeable kind |
| StreamRoundTrip.ContentIsConserved | backend/llm/src/stream.rs:91-283 | from any events, text, thinking, tool calls and redacted data arrive complete and in order, and `tool_uses` is what `extract_tool_uses` finds in the blocks |
| StreamRoundTrip.EmptyDeltaSplitsText | backend/llm/src/stream.rs:91-146 | an empty thinking delta splits one text in two blocks |
| StreamBlocks.RebuiltIsBlocks | backend/llm/src/stream.rs:85-283 | from any events the blocks, signatures included, are the maximal runs of deltas of one kind, the empty ones dropped |
| StreamBlocks.EmptyDeltasMatterIffTheySplit | backend/llm/src/stream.rs:109-146 | leaving out empty deltas leaves the blocks, signatures aside, exactly if none separates two deltas of the other kind that are not empty |
| StreamSignatures.EmptyDeltasMatterWithSignatures | backend/llm/src/stream.rs:109-148 | for blocks with their signatures: leaving out empty deltas changes nothing exactly if none splits and, wherever thinking is over, the last signature that came late repeats the last one in time, and without one the thinking has its own or none |
| StreamSignatures.AgreesMeans | backend/llm/src/stream.rs:109-148 | that condition holds exactly where the signature in time is the thinking's own |
| StreamSignatures.LateSignaturesMatter | backend/llm/src/stream.rs:109-148 | in particular if no signature comes late, and, unless a signature from the first late one on repeats one before it, only then |
| StreamSignatures.EmptyTextKeepsSignatureAway | backend/llm/src/stream.rs:109-148 | a concrete list of events in which such a signature is kept away |
| StreamBlocks.RoundTripEndToEnd | backend/llm/src/stream.rs:39-283 | blocks announced in any chunking, after an opening that names the model, with heartbeats anywhere, reach the caller through pump and consumer under that model, merged exactly where neighbours are of one kind |
| Sanitize.CollectIds | backend/llm/src/sanitize.rs:23-48 | the two sets hold exactly the ids of tool calls and of results |
| Sanitize.KeepBlocks | backend/llm/src/sanitize.rs:69-86 | of one message exactly the orphans are dropped, in order |
| Sanitize.ExchangeIds | backend/llm/src/sanitize.rs:23-48 | only the assistant's `tool_use` blocks and the user's `tool_result` blocks count, matched by `id` and `tool_use_id` |
| Sanitize.SanitizeToolPairs | backend/llm/src/sanitize.rs:22-101 | nothing exactly when there is no orphan; otherwise the conversation without its orphans and emptied messages |
| Sanitize.KeptIds | backend/llm/src/sanitize.rs:22-101 | what is left has exactly the ids that occurred on both sides |
| Sanitize.SanitizedIsGreatest | backend/llm/src/sanitize.rs:22-101 | the result has no orphans, and every orphan-free conversation got by deleting blocks lies within it |
| Sanitize.OtherBlocksStay | backend/llm/src/sanitize.rs:59-98 | blocks outside tool exchanges are never dropped |
| Sanitize.MessageSurvives | backend/llm/src/sanitize.rs:59-98 | the result is what is left of the messages in order; with an orphan present something is left of one exactly if it is no list of blocks or a block of it is kept, and an empty one goes exactly then |
| Sanitize.SanitizedOnce | backend/llm/src/sanitize.rs:22-101 | a second pass finds nothing to do |
| ThinkingStrip.StripThinkingFromMessage | backend/daemon/src/content_util.rs:329-345 | in place, one assistant message loses its thinking blocks and nothing else changes |
| ThinkingStrip.MostRecentAssistantTurnStart | backend/daemon/src/content_util.rs:284-308 | the walk back finds the start of the maximal run of assistant messages and tool results around the last assistant message, or the end of the array |
| ThinkingStrip.MaybeStripPriorThinking | backend/daemon/src/content_util.rs:220-282 | in place, the history becomes its wire form for the mode and provider |
| ThinkingStrip.SentByMode | backend/daemon/src/content_util.rs:220-345 | what each mode sends: everything with full replay or for the providers that need it, no thinking with none, and else the latest turn in full and the messages before it without thinking |
| ThinkingStrip.DroppedInOrder | backend/daemon/src/content_util.rs:329-345 | the blocks kept stay in order |
| ThinkingStrip.TurnStart | backend/daemon/src/content_util.rs:284-308 | the start is within the history; without an assistant message everything precedes it |
| ThinkingStrip.WalkBack | backend/daemon/src/content_util.rs:284-308 | from the start on there are only assistant messages and tool results, and the message before it is neither |
| ThinkingStrip.TurnStartAdvances | backend/daemon/src/content_util.rs:284-308 | once there is an assistant message, appending never moves the start back |
| ThinkingStrip.WireChangesAtMostOnce | backend/daemon/src/content_util.rs:220-282 | over every growing history a message's wire form goes from kept to stripped at most once and never reverts |
| ThinkingStrip.StripCommutesWithAppend | backend/daemon/src/content_util.rs:220-345 | stripping what was sent plus a new message equals stripping the full history |
| ThinkingStrip.StripTwice | backend/daemon/src/content_util.rs:220-345 | stripping twice is stripping once |
| CallStore.CallStore.Rotate | backend/call-store/src/lib.rs:491-528 | no call before the cutoff is left, all others are if their payloads fit, and otherwise those deleted are older than those left; deletions are counted by cause |
| CallStore.RotationLeaves | backend/call-store/src/lib.rs:491-522 | the same of row-by-row eviction of the young rows |
| CallStore.TotalIsBytes | backend/call-store/src/lib.rs:506-522 | what counts against the cap is all requests and responses |
| CallStore.SizedIsEviction | backend/call-store/src/lib.rs:506-522 | the deletion by running totals equals evicting the oldest until the rest fits or one is left |
| CallStore.EvictUntilFits | backend/call-store/src/lib.rs:485-490 | what eviction leaves fits or is one row, is not empty if the table was not, and is part of it |
| CallStore.KeptIsLongestFit | backend/call-store/src/lib.rs:503-522 | the kept rows are a newest-first part that fits or is one row, and contain every newest-first part that fits |
| CallStore.RotatedStays | backend/call-store/src/lib.rs:491-528 | rotating again with the same arguments deletes nothing |
| CallStore.NewestStays | backend/call-store/src/lib.rs:488-490 | the newest row, if young enough, is never deleted |
| Templates.Prompts.WriteTemplate | backend/daemon/src/templates.rs:191-207 | the file and its hash in the manifest are set together |
| Templates.Prompts.SyncOneTemplate | backend/daemon/src/templates.rs:152-189 | the decision table: written, updated, user-modified or pre-manifest, and its effect |
| Templates.ReportTells | backend/daemon/src/templates.rs:152-189 | what each reported action means for the file and the manifest before and after |
| Templates.Prompts.SyncTemplates | backend/daemon/src/templates.rs:131-150 | files and saved manifest after a sync that finished, or stopped after any number of templates with the manifest unsaved |
| Templates.SyncOutcome | backend/daemon/src/templates.rs:131-189 | under each name a sync leaves its last default and hash, except that foreign files and names without default are untouched |
| Templates.SyncTwice | backend/daemon/src/templates.rs:131-150 | repeating a completed sync changes nothing, even if names repeat |
| Templates.WroteIsThere | backend/daemon/src/templates.rs:131-207 | what a finished sync counts as having written is in the file and in the manifest after it |
| Templates.ManifestIsOwn | backend/daemon/src/templates.rs:191-207 | in every run of syncs, crashes, edits and deletions each manifest hash is that of a content that an earlier finished sync wrote under that name |
| Templates.OverwritesOnlyItsOwn | backend/daemon/src/templates.rs:131-207 | in every such run whatever a sync overwrites has the hash of a content that an earlier finished sync wrote under that name |
| Templates.ForeignStays | backend/daemon/src/templates.rs:152-189 | a foreign file stays as it is until the user touches it |
| Templates.UntrackedIsTheUsers | backend/daemon/src/templates.rs:163-170 | an untracked file holds the user's last edit until deleted, whatever syncs run |
| Templates.InterruptedWriteIsAbandoned | backend/daemon/src/templates.rs:131-150 | exactly when a file written by an interrupted sync is out of reach of later syncs |
| Supervisor.FailuresAfterRound | backend/daemon/src/supervisor.rs:300-438 | every way a round can fail counts one failure; only a stable child forgives earlier ones |
| Supervisor.SuperviseLlmSidecar | backend/daemon/src/supervisor.rs:217-285 | gives up at the first five failures in a row and not before; waits the backoff after each round; at most 4s + 5 rounds and 15(s + 1) seconds of waits with s stable children |
| Supervisor.StreakMeansFive | backend/daemon/src/supervisor.rs:509-527 | the counter reaches five exactly when five rounds went by whose last four were not stable |
| Supervisor.WaitsOfFour | backend/daemon/src/supervisor.rs:574-577 | the waits of a streak that does not give up sum to at most 15 seconds |
| Supervisor.BackoffDoubles | backend/daemon/src/supervisor.rs:574-577 | the wait starts at a second, doubles with each failure up to 32 seconds, and never decreases |
| Supervisor.FiveMinutesForgive | backend/daemon/src/supervisor.rs:509-527 | only a child that ran for 300 seconds, healthy or not, resets the count |
| Supervisor.BoundIsReached | backend/daemon/src/supervisor.rs:217-285 | for every s there is a run of exactly 4s + 5 rounds before giving up |
| EffectiveCatalog.Build | backend/daemon/src/effective_catalog.rs:340-434 | the built model is named `provider:model_id`; the provider's defaults win for SDK, base URL and limits, then its entry, then what was discovered |
| EffectiveCatalog.BuildFallsBack | backend/daemon/src/effective_catalog.rs:348-385 | where the user chose nothing: the `anthropic/` promotion, curated defaults before the discovered SDK and after the discovered rest, then the provider's default SDK |
| EffectiveCatalog.LimitsAreNarrowed | backend/daemon/src/effective_catalog.rs:372-385 | discovered limits are taken over exactly if they fit 32 bits |
| EffectiveCatalog.FindEffectiveModel | backend/daemon/src/effective_catalog.rs:87-168 | the loops over providers and hits compute the three-way lookup |
| EffectiveCatalog.ListEffectiveModels | backend/daemon/src/effective_catalog.rs:178-226 | the nested loops compute the merged list, each provider's block in order of ids |
| EffectiveCatalog.SortById | backend/daemon/src/effective_catalog.rs:202-207 | the block is ordered by id |
| EffectiveCatalog.FirstDifferenceDecides | backend/daemon/src/effective_catalog.rs:202-207 | the order is that of the first difference, a prefix first |
| EffectiveCatalog.SortKeepsAll | backend/daemon/src/effective_catalog.rs:202-207 | and holds every record as often as before |
| EffectiveCatalog.ListedExactly | backend/daemon/src/effective_catalog.rs:178-226 | a row is listed exactly when it is a static entry or a visible record of an enabled, discoverable provider that no static entry shadows |
| EffectiveCatalog.DiscoveredRowMeans | backend/daemon/src/effective_catalog.rs:191-222 | for a discovered row: enabled, to be asked, on record, not static, and visible unless hidden ones are asked for |
| EffectiveCatalog.RowResolves | backend/daemon/src/effective_catalog.rs:248-314 | a listed record is what its qualified name resolves to past the first lookup |
| EffectiveCatalog.ListedResolvesBack | backend/daemon/src/effective_catalog.rs:87-226 | every discovered row resolves back to its model by name exactly when the static lookup does not know that name or agrees |
| EffectiveCatalog.DisabledOnlyByFirstLookup | backend/daemon/src/effective_catalog.rs:79-125 | whatever resolves past the first lookup belongs to an enabled provider |
| EffectiveCatalog.QualifiedNames | backend/daemon/src/effective_catalog.rs:248-314 | what a qualified name of an enabled provider comes to: the static entry, else hidden if ignored, else trusted with its record if there is one |
| EffectiveCatalog.OffersMeans | backend/daemon/src/effective_catalog.rs:107-133 | which providers count for a bare id, and with what model |
| EffectiveCatalog.BareIdFails | backend/daemon/src/effective_catalog.rs:135-168 | a bare id is unknown exactly if no enabled provider knows it, and hidden exactly if some do and all hide it |
| EffectiveCatalog.BareIdIsUnambiguous | backend/daemon/src/effective_catalog.rs:107-168 | a bare id resolves exactly when one provider offers it, and is ambiguous exactly when two do |

## Left out

- SQLite, the WHERE clause's text, and timestamps compared as text: clauses are trees with numbered placeholders, and timestamps instants.
- Rounding and overflow of floating-point costs: costs are reals.
- Ranges of the date library: the calendar has no first or last year.
- BudgetRuns.OvershootBound: excludes failing queries of the bounded budget itself and the compaction exemption, which are modelled at the gate, because they let calls through over the limit by design.
- BudgetRuns.OvershootIsReached: for budgets that alone match some call; where two budgets match it, the stricter one can keep the other from being overshot.
- Token counts, per-component costs and pricing: a row carries its total cost, and the outcome says what was reported and what was priced.
- The choice of which calls reach the cache tracker, its lookup by character, and `reconstruct`.
- Rotation through provider keys after credential failures, and the classification of such failures.
- KeepaliveAgreement.KeepaliveSatisfiesTracker: for one kept model and one interval throughout a run; that the provider keeps the cache for an hour from the record of its last use is an assumption of it.
- SidecarPump.Relay: a connection still open when the schedule of races runs out is consumed as if it ended there.
- Relayed frames beyond their kind and text, broadcast failures, and parsing of lines: a line is an event or malformed.
- Conversion of content blocks to provider formats, and truncation of tool results.
- Compression of stored payloads, queries of the store and page reclamation: a row carries its compressed sizes.
- A template file half written at a crash: writing a file is one step.
- Choice of the child's executable, health probing and process signals: each round of the supervisor is the event it ends in. The Matrix bridge's loop, a special case, has no model of its own.
- The configuration crate is not part of this model: its lookup by short or qualified name, visibility rules, hard-coded defaults and SDK names are arbitrary functions in `EffectiveCatalog`, and a model has the four merged fields that the builder fills from several places.
