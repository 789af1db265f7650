/**
 * Runs of the ledger client: calls are admitted against the ledger as it stands, stay in
 * flight for a while, and leave their cost when they end. Steps interleave freely, so
 * several calls can pass the gate before the first of them is counted.
 */
module BudgetRuns {
  import opened Common
  import opened BudgetWindow
  import LocalTime
  import opened Query
  import opened Budget

  datatype State = State(now: int, rows: seq<CallRow>, inFlight: seq<Call>)

  datatype Step =
    | Wait(until: int)
    /** A call is let through; the queries of the budgets in `failing` fail. */
    | Admit(call: Call, failing: set<nat>)
    /** The call in flight at `index` ends and its row is written, stamped at or before now. */
    | Record(index: nat, outcome: Outcome, ts: int)
    /** The call at `index` fails without leaving a row. */
    | Lose(index: nat)

  /** A configuration on a clock. */
  datatype World = World(off: LocalTime.Offsets, config: UsageConfig)
  {
    ghost predicate Valid() {
      (config.utc || LocalTime.HourlyShifts(off)) &&
      forall b :: b in config.budgets ==> ValidBudget(b)
    }

    ghost function Starts(now: int): (s: seq<int>)
      ensures |s| == |config.budgets|
    {
      seq(|config.budgets|, i requires 0 <= i < |config.budgets| => StartOf(off, config, config.budgets[i], now))
    }
  }

  function Without<T>(s: seq<T>, i: nat): seq<T>
    requires i < |s|
  {
    s[..i] + s[i + 1..]
  }

  ghost predicate Enabled(w: World, s: State, step: Step) {
    match step
    case Wait(until) => s.now <= until
    case Admit(call, failing) => Admits(w.config, call, s.rows, w.Starts(s.now), failing)
    case Record(i, _, ts) => i < |s.inFlight| && ts <= s.now
    case Lose(i) => i < |s.inFlight|
  }

  ghost function Next(w: World, s: State, step: Step): State
    requires Enabled(w, s, step)
  {
    match step
    case Wait(until) => s.(now := until)
    case Admit(call, _) => s.(inFlight := s.inFlight + [call])
    case Record(i, o, ts) =>
      s.(rows := s.rows + [BuildCallRow(s.inFlight[i], o, ts)], inFlight := Without(s.inFlight, i))
    case Lose(i) => s.(inFlight := Without(s.inFlight, i))
  }

  /** The state after a sequence of steps, if every one of them is possible. */
  ghost predicate Reaches(w: World, s: State, steps: seq<Step>, t: State)
    decreases |steps|
  {
    if steps == [] then s == t
    else Enabled(w, s, steps[0]) && Reaches(w, Next(w, s, steps[0]), steps[1..], t)
  }

  // ----- what is bounded -----

  /** A call that a budget both gates and charges. */
  predicate Metered(b: UsageBudget, call: Call) {
    BudgetMatchesCall(b, call) && !IsSubscriptionProvider(call.provider)
  }

  function CountMetered(b: UsageBudget, calls: seq<Call>): nat {
    if calls == [] then 0
    else CountMetered(b, calls[..|calls| - 1]) + (if Metered(b, calls[|calls| - 1]) then 1 else 0)
  }

  /** The budget's action applies to every call it matches. */
  ghost predicate Enforced(config: UsageConfig, b: UsageBudget) {
    forall call :: BudgetMatchesCall(b, call) ==> ShouldBlock(config, b, call.callType)
  }

  lemma BlockIsEnforced(config: UsageConfig, b: UsageBudget)
    requires b.limit == Block && !CompactionAllowed(config, b)
    ensures Enforced(config, b)
  {
  }

  ghost function Spend(w: World, i: nat, s: State): real
    requires i < |w.config.budgets|
  {
    var b := w.config.budgets[i];
    CurrentCost(b, StartOf(w.off, w.config, b, s.now), s.rows)
  }

  /**
   * No step puts more than `k` metered calls in flight or records a cost outside [0, cmax],
   * and the query of budget `i` does not fail when such a call is let through.
   */
  predicate StepWithin(i: nat, b: UsageBudget, s: State, step: Step, k: nat, cmax: real) {
    match step
    case Wait(_) => true
    case Admit(call, failing) => Metered(b, call) ==> i !in failing && CountMetered(b, s.inFlight) < k
    case Record(index, o, ts) => index < |s.inFlight| ==> 0.0 <= CostOf(BuildCallRow(s.inFlight[index], o, ts)) <= cmax
    case Lose(_) => true
  }

  ghost predicate RunWithin(w: World, i: nat, s: State, steps: seq<Step>, k: nat, cmax: real)
    requires i < |w.config.budgets|
    decreases |steps|
  {
    steps == [] ||
    (StepWithin(i, w.config.budgets[i], s, steps[0], k, cmax) &&
     (Enabled(w, s, steps[0]) ==> RunWithin(w, i, Next(w, s, steps[0]), steps[1..], k, cmax)))
  }

  /** What `n` calls may cost. */
  function Scaled(n: nat, c: real): real {
    n as real * c
  }

  /** Spend plus all that the calls in flight may still add. */
  ghost predicate Bounded(w: World, i: nat, s: State, k: nat, cmax: real)
    requires i < |w.config.budgets|
  {
    var b := w.config.budgets[i];
    && (forall r :: r in s.rows ==> r.ts <= s.now && 0.0 <= CostOf(r))
    && CountMetered(b, s.inFlight) <= k
    && Spend(w, i, s) + Scaled(CountMetered(b, s.inFlight), cmax) < b.costUsd + Scaled(k, cmax)
  }

  // ----- the clock -----

  /** What the clock of the budgets shows: UTC if so configured, else the local one. */
  function Clock(w: World, u: int): int {
    if w.config.utc then u else LocalTime.Local(w.off, u)
  }

  /** A budget counts from the instant from which on its clock shows the latest of its resets or later. */
  lemma CountsFromReset(w: World, b: UsageBudget, now: int)
    requires w.Valid() && b in w.config.budgets
    ensures exists r :: LatestReset(r, Clock(w, now), b.period, Some(b.anchors)) &&
                        forall u {:trigger Clock(w, u)} :: StartOf(w.off, w.config, b, now) <= u <==> r <= Clock(w, u)
  {
    assert ValidBudget(b);
    var a := Some(b.anchors);
    var r := PeriodStart(Clock(w, now), b.period, a);
    StartIsLatestReset(Clock(w, now), b.period, a);
    if !w.config.utc { LocalTime.ResolvesReset(w.off, r, b.period, a); }
    hide PeriodStart, LatestReset, IsReset, LocalTime.ResolveLocal;
    assert forall u :: !w.config.utc ==> Clock(w, u) == LocalTime.Local(w.off, u);
  }

  /** A later instant is in the same window, or in one that starts after the earlier instant. */
  lemma WindowMovesOn(w: World, b: UsageBudget, now: int, later: int)
    requires w.Valid() && b in w.config.budgets && now <= later
    ensures var s, t := StartOf(w.off, w.config, b, now), StartOf(w.off, w.config, b, later);
            s <= now && (t == s || now < t)
  {
    hide LocalTime.WindowStart, LocalTime.WindowEnd, PeriodStart, PeriodEnd, LocalTime.HourlyShifts;
    var a := Some(b.anchors);
    if w.config.utc {
      WindowsTile(now, b.period, a);
      WindowsTile(later, b.period, a);
    } else {
      LocalTime.LocalWindowsTile(w.off, now, b.period, a);
      LocalTime.LocalWindowsTile(w.off, later, b.period, a);
    }
  }

  lemma {:induction false} NothingSince(rows: seq<CallRow>, f: QueryFilter, now: int)
    requires f.since.Some? && now < f.since.value
    requires forall r :: r in rows ==> r.ts <= now
    ensures TotalCost(rows, f) == 0.0
  {
    if rows != [] {
      NothingSince(rows[..|rows| - 1], f, now);
      assert rows[|rows| - 1] in rows;
    }
  }

  lemma WaitKeepsBound(w: World, i: nat, s: State, until: int, k: nat, cmax: real)
    requires w.Valid() && i < |w.config.budgets| && s.now <= until && 0.0 <= cmax
    requires Bounded(w, i, s, k, cmax)
    ensures Bounded(w, i, s.(now := until), k, cmax)
  {
    hide Scaled, StartOf, TotalCost, CountMetered;
    var b := w.config.budgets[i];
    var start := StartOf(w.off, w.config, b, until);
    WindowMovesOn(w, b, s.now, until);
    assert ValidBudget(b);
    if s.now < start {
      NothingSince(s.rows, FilterForBudget(b, start), s.now);
      ScaleOrder(CountMetered(b, s.inFlight), k, cmax);
      assert Spend(w, i, s.(now := until)) == 0.0 < b.costUsd;
    }
  }

  lemma ScaleOrder(a: nat, b: nat, c: real)
    requires a <= b && 0.0 <= c
    ensures Scaled(a, c) <= Scaled(b, c)
  {
  }

  lemma ScaleStep(a: nat, c: real)
    ensures Scaled(a + 1, c) == Scaled(a, c) + c
  {
  }

  lemma ScaleZero(c: real)
    ensures Scaled(0, c) == 0.0
  {
  }

  // ----- calls in flight -----

  lemma {:induction false} CountAppend(b: UsageBudget, calls: seq<Call>, more: seq<Call>)
    ensures CountMetered(b, calls + more) == CountMetered(b, calls) + CountMetered(b, more)
  {
    if more == [] {
      assert calls + more == calls;
    } else {
      assert (calls + more)[..|calls + more| - 1] == calls + more[..|more| - 1];
      CountAppend(b, calls, more[..|more| - 1]);
    }
  }

  lemma CountWithout(b: UsageBudget, calls: seq<Call>, i: nat)
    requires i < |calls|
    ensures CountMetered(b, calls) == CountMetered(b, Without(calls, i)) + if Metered(b, calls[i]) then 1 else 0
  {
    assert calls == calls[..i] + [calls[i]] + calls[i + 1..];
    CountAppend(b, calls[..i] + [calls[i]], calls[i + 1..]);
    CountAppend(b, calls[..i], [calls[i]]);
    CountAppend(b, calls[..i], calls[i + 1..]);
    CountOne(b, calls[i]);
  }

  lemma CountOne(b: UsageBudget, call: Call)
    ensures CountMetered(b, [call]) == if Metered(b, call) then 1 else 0
  {
    assert [call][..0] == [];
  }

  lemma AdmitKeepsBound(w: World, i: nat, s: State, call: Call, failing: set<nat>, k: nat, cmax: real)
    requires w.Valid() && i < |w.config.budgets| && 0.0 <= cmax
    requires Enforced(w.config, w.config.budgets[i])
    requires Bounded(w, i, s, k, cmax) && Enabled(w, s, Admit(call, failing))
    requires StepWithin(i, w.config.budgets[i], s, Admit(call, failing), k, cmax)
    ensures Bounded(w, i, Next(w, s, Admit(call, failing)), k, cmax)
  {
    hide Scaled, StartOf, TotalCost, CountMetered;
    var b := w.config.budgets[i];
    var n := CountMetered(b, s.inFlight);
    CountAppend(b, s.inFlight, [call]);
    CountOne(b, call);
    if Metered(b, call) {
      assert !Blocks(w.config, i, call, s.rows, w.Starts(s.now), failing);
      assert Spend(w, i, s) < b.costUsd;
      var next := Next(w, s, Admit(call, failing));
      assert CountMetered(b, next.inFlight) == n + 1 && Spend(w, i, next) == Spend(w, i, s);
      ScaleOrder(CountMetered(b, next.inFlight), k, cmax);
    }
  }

  /** A recorded row adds nothing to a budget that did not meter the call. */
  lemma UnmeteredAddsNothing(b: UsageBudget, call: Call, o: Outcome, ts: int, start: int)
    requires !Metered(b, call)
    ensures var row := BuildCallRow(call, o, ts);
            Satisfies(FilterForBudget(b, start), row) ==> CostOf(row) == 0.0
  {
    hide BudgetMatchesCall, Satisfies, BuildCallRow;
    if Satisfies(FilterForBudget(b, start), BuildCallRow(call, o, ts)) {
      GateCoversCounted(b, call, o, ts, start);
      SubscriptionIsFree(call, o, ts);
    }
  }

  lemma SpendAfterRow(rows: seq<CallRow>, row: CallRow, f: QueryFilter)
    ensures TotalCost(rows + [row], f) == TotalCost(rows, f) + if Satisfies(f, row) then CostOf(row) else 0.0
  {
    assert (rows + [row])[..|rows|] == rows;
  }

  lemma RecordKeepsBound(w: World, i: nat, s: State, index: nat, o: Outcome, ts: int, k: nat, cmax: real)
    requires w.Valid() && i < |w.config.budgets| && 0.0 <= cmax
    requires Bounded(w, i, s, k, cmax) && Enabled(w, s, Record(index, o, ts))
    requires StepWithin(i, w.config.budgets[i], s, Record(index, o, ts), k, cmax)
    ensures Bounded(w, i, Next(w, s, Record(index, o, ts)), k, cmax)
  {
    hide Scaled, StartOf, TotalCost, CountMetered, Satisfies, BuildCallRow, Metered, FilterForBudget;
    var b := w.config.budgets[i];
    var call := s.inFlight[index];
    var row := BuildCallRow(call, o, ts);
    var start := StartOf(w.off, w.config, b, s.now);
    RowIsStamped(call, o, ts);
    CountWithout(b, s.inFlight, index);
    SpendAfterRow(s.rows, row, FilterForBudget(b, start));
    if Metered(b, call) {
      ScaleStep(CountMetered(b, Without(s.inFlight, index)), cmax);
    } else {
      UnmeteredAddsNothing(b, call, o, ts, start);
    }
  }

  lemma RowIsStamped(call: Call, o: Outcome, ts: int)
    ensures BuildCallRow(call, o, ts).ts == ts
  {
  }

  lemma LoseKeepsBound(w: World, i: nat, s: State, index: nat, k: nat, cmax: real)
    requires i < |w.config.budgets| && 0.0 <= cmax && index < |s.inFlight|
    requires Bounded(w, i, s, k, cmax)
    ensures Bounded(w, i, s.(inFlight := Without(s.inFlight, index)), k, cmax)
  {
    hide Scaled, StartOf, TotalCost, CountMetered;
    var b := w.config.budgets[i];
    CountWithout(b, s.inFlight, index);
    ScaleOrder(CountMetered(b, Without(s.inFlight, index)), CountMetered(b, s.inFlight), cmax);
  }

  lemma StepKeepsBound(w: World, i: nat, s: State, step: Step, k: nat, cmax: real)
    requires w.Valid() && i < |w.config.budgets| && 0.0 <= cmax
    requires Enforced(w.config, w.config.budgets[i])
    requires Bounded(w, i, s, k, cmax) && Enabled(w, s, step)
    requires StepWithin(i, w.config.budgets[i], s, step, k, cmax)
    ensures Bounded(w, i, Next(w, s, step), k, cmax)
  {
    hide Bounded, Enforced, StepWithin, Admits;
    match step
    case Wait(until) => WaitKeepsBound(w, i, s, until, k, cmax);
    case Admit(call, failing) => AdmitKeepsBound(w, i, s, call, failing, k, cmax);
    case Record(index, o, ts) => RecordKeepsBound(w, i, s, index, o, ts, k, cmax);
    case Lose(index) => LoseKeepsBound(w, i, s, index, k, cmax);
  }

  lemma {:induction false} RunKeepsBound(w: World, i: nat, s: State, steps: seq<Step>, t: State, k: nat, cmax: real)
    requires w.Valid() && i < |w.config.budgets| && 0.0 <= cmax
    requires Enforced(w.config, w.config.budgets[i])
    requires Bounded(w, i, s, k, cmax)
    requires Reaches(w, s, steps, t) && RunWithin(w, i, s, steps, k, cmax)
    ensures Bounded(w, i, t, k, cmax)
    decreases |steps|
  {
    hide Bounded, Enforced, StepWithin, Enabled, Next;
    if steps != [] {
      StepKeepsBound(w, i, s, steps[0], k, cmax);
      RunKeepsBound(w, i, Next(w, s, steps[0]), steps[1..], t, k, cmax);
    }
  }

  /** A starting point: nothing in flight, no row from the future, and the budget not yet spent. */
  ghost predicate Idle(w: World, i: nat, s: State)
    requires i < |w.config.budgets|
  {
    && s.inFlight == []
    && (forall r :: r in s.rows ==> r.ts <= s.now && 0.0 <= CostOf(r))
    && Spend(w, i, s) < w.config.budgets[i].costUsd
  }

  /**
   * The overshoot bound. In every interleaving with at most `k` metered calls in flight and
   * costs in [0, cmax], the spend of an enforced budget in its current window stays below
   * its limit plus k times cmax, also when calls admitted in one window end in the next.
   */
  lemma OvershootBound(w: World, i: nat, s: State, steps: seq<Step>, t: State, k: nat, cmax: real)
    requires w.Valid() && i < |w.config.budgets| && 0.0 <= cmax
    requires Enforced(w.config, w.config.budgets[i])
    requires Idle(w, i, s)
    requires Reaches(w, s, steps, t) && RunWithin(w, i, s, steps, k, cmax)
    ensures Spend(w, i, t) < w.config.budgets[i].costUsd + k as real * cmax
  {
    hide StartOf, TotalCost, Enforced;
    ScaleOrder(0, k, cmax);
    RunKeepsBound(w, i, s, steps, t, k, cmax);
    ScaleOrder(0, CountMetered(w.config.budgets[i], t.inFlight), cmax);
  }

  // ----- the bound is sharp -----

  predicate AllAre(calls: seq<Call>, call: Call) {
    forall j :: 0 <= j < |calls| ==> calls[j] == call
  }

  lemma {:induction false} AllMetered(b: UsageBudget, calls: seq<Call>, call: Call)
    requires AllAre(calls, call) && Metered(b, call)
    ensures CountMetered(b, calls) == |calls|
  {
    if calls != [] {
      AllMetered(b, calls[..|calls| - 1], call);
    }
  }

  /** Budget `i` alone is about the call, and counts it if it ends its turn. */
  ghost predicate SoleBudget(w: World, i: nat, call: Call)
    requires i < |w.config.budgets|
  {
    && Metered(w.config.budgets[i], call)
    && (forall j :: 0 <= j < |w.config.budgets| && j != i ==> !BudgetMatchesCall(w.config.budgets[j], call))
    && CountsTurn(w.config.budgets[i], call)
  }

  predicate CountsTurn(b: UsageBudget, call: Call) {
    b.usageKind != [] ==> UsageKind(BuildCallRow(call, Outcome("end_turn", None, None), 0)) in b.usageKind
  }

  lemma RunPrepended(w: World, i: nat, s: State, step: Step, rest: seq<Step>, t: State, k: nat, cmax: real)
    requires i < |w.config.budgets| && Enabled(w, s, step) && StepWithin(i, w.config.budgets[i], s, step, k, cmax)
    requires Reaches(w, Next(w, s, step), rest, t) && RunWithin(w, i, Next(w, s, step), rest, k, cmax)
    ensures Reaches(w, s, [step] + rest, t) && RunWithin(w, i, s, [step] + rest, k, cmax)
  {
    hide Enabled, Next, StepWithin;
    assert ([step] + rest)[1..] == rest;
  }

  /** Everything in flight ends and costs `cmax`. */
  lemma {:induction false} Drain(w: World, i: nat, s: State, call: Call, k: nat, cmax: real)
      returns (steps: seq<Step>, t: State)
    requires w.Valid() && i < |w.config.budgets| && SoleBudget(w, i, call) && 0.0 <= cmax && AllAre(s.inFlight, call)
    ensures Reaches(w, s, steps, t) && RunWithin(w, i, s, steps, k, cmax)
    ensures Spend(w, i, t) == Spend(w, i, s) + Scaled(|s.inFlight|, cmax)
    decreases |s.inFlight|
  {
    assert Reaches(w, s, [], s) && RunWithin(w, i, s, [], k, cmax);
    hide *;
    if s.inFlight != [] {
      var o := Outcome("end_turn", Some(cmax), None);
      var record := Record(0, o, s.now);
      var next := s.(rows := s.rows + [BuildCallRow(call, o, s.now)], inFlight := Without(s.inFlight, 0));
      RecordCosts(w, i, s, call, o, k, cmax);
      steps, t := Drain(w, i, next, call, k, cmax);
      ScaleStep(|next.inFlight|, cmax);
      RunPrepended(w, i, s, record, steps, t, k, cmax);
      steps := [record] + steps;
    } else {
      ScaleZero(cmax);
      steps, t := [], s;
    }
  }

  /** From a state with room left, admit `m` calls and then let everything in flight cost `cmax`. */
  lemma {:induction false} Burst(w: World, i: nat, s: State, call: Call, m: nat, k: nat, cmax: real)
      returns (steps: seq<Step>, t: State)
    requires w.Valid() && i < |w.config.budgets| && SoleBudget(w, i, call) && 0.0 <= cmax
    requires AllAre(s.inFlight, call) && |s.inFlight| + m <= k
    requires m > 0 ==> Spend(w, i, s) < w.config.budgets[i].costUsd
    ensures Reaches(w, s, steps, t) && RunWithin(w, i, s, steps, k, cmax)
    ensures Spend(w, i, t) == Spend(w, i, s) + Scaled(m + |s.inFlight|, cmax)
    decreases m
  {
    AllMetered(w.config.budgets[i], s.inFlight, call);
    hide *;
    if m > 0 {
      var next, admit := s.(inFlight := s.inFlight + [call]), Admit(call, {});
      AdmitIsFree(w, i, s, call, k, cmax);
      steps, t := Burst(w, i, next, call, m - 1, k, cmax);
      RunPrepended(w, i, s, admit, steps, t, k, cmax);
      steps := [admit] + steps;
    } else {
      steps, t := Drain(w, i, s, call, k, cmax);
    }
  }

  lemma AdmitIsFree(w: World, i: nat, s: State, call: Call, k: nat, cmax: real)
    requires w.Valid() && i < |w.config.budgets| && SoleBudget(w, i, call)
    requires Spend(w, i, s) < w.config.budgets[i].costUsd
    requires AllAre(s.inFlight, call) && CountMetered(w.config.budgets[i], s.inFlight) < k
    ensures var next := s.(inFlight := s.inFlight + [call]);
            && Enabled(w, s, Admit(call, {})) && Next(w, s, Admit(call, {})) == next
            && StepWithin(i, w.config.budgets[i], s, Admit(call, {}), k, cmax)
            && AllAre(next.inFlight, call) && Spend(w, i, next) == Spend(w, i, s)
  {
    hide TotalCost, CountMetered, StartOf, BudgetMatchesCall, ShouldBlock;
  }

  lemma RecordCosts(w: World, i: nat, s: State, call: Call, o: Outcome, k: nat, cmax: real)
    requires w.Valid() && i < |w.config.budgets| && SoleBudget(w, i, call)
    requires o == Outcome("end_turn", Some(cmax), None) && 0.0 <= cmax
    requires AllAre(s.inFlight, call) && s.inFlight != []
    ensures var step := Record(0, o, s.now);
            var next := s.(rows := s.rows + [BuildCallRow(call, o, s.now)], inFlight := Without(s.inFlight, 0));
            && Enabled(w, s, step) && Next(w, s, step) == next
            && StepWithin(i, w.config.budgets[i], s, step, k, cmax)
            && AllAre(next.inFlight, call) && |next.inFlight| == |s.inFlight| - 1
            && Spend(w, i, next) == Spend(w, i, s) + cmax
  {
    hide TotalCost, Metered, Satisfies, BuildCallRow, FilterForBudget, StartOf;
    var b := w.config.budgets[i];
    CostlyRow(w, i, call, o, s.now, cmax);
    SpendAfterRow(s.rows, BuildCallRow(call, o, s.now), FilterForBudget(b, StartOf(w.off, w.config, b, s.now)));
  }

  lemma CostlyRow(w: World, i: nat, call: Call, o: Outcome, now: int, cmax: real)
    requires w.Valid() && i < |w.config.budgets| && SoleBudget(w, i, call) && o == Outcome("end_turn", Some(cmax), None)
    ensures CostOf(BuildCallRow(call, o, now)) == cmax
    ensures var b := w.config.budgets[i];
            Satisfies(FilterForBudget(b, StartOf(w.off, w.config, b, now)), BuildCallRow(call, o, now))
  {
    hide Satisfies, StartOf;
    var b := w.config.budgets[i];
    WindowMovesOn(w, b, now, now);
    ScopeOfRow(b, call, o, now, StartOf(w.off, w.config, b, now));
  }

  /**
   * The overshoot is real: from every idle state, `k` calls let in at once reach k times cmax
   * above the spend found there, however close to the limit that spend already was.
   */
  lemma OvershootIsReached(w: World, i: nat, s: State, call: Call, k: nat, cmax: real)
    requires w.Valid() && i < |w.config.budgets| && SoleBudget(w, i, call) && 0.0 <= cmax && Idle(w, i, s)
    ensures exists steps, t :: Reaches(w, s, steps, t) &&
              RunWithin(w, i, s, steps, k, cmax) &&
              Spend(w, i, t) == Spend(w, i, s) + k as real * cmax
  {
    hide Reaches, RunWithin, Spend, Metered;
    var steps, t := Burst(w, i, s, call, k, k, cmax);
  }
}
