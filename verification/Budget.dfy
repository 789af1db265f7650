/**
 * The admission gate of usage budgets, the rows that calls leave in the ledger, and how
 * the two agree on which calls belong to a budget.
 */
module Budget {
  import opened Common
  import opened BudgetWindow
  import LocalTime
  import opened Query

  datatype Action = Warn | Block | PauseBackground

  datatype UsageBudget = UsageBudget(
    period: Period,
    costUsd: real,
    limit: Action,
    character: Option<string>,
    provider: Option<string>,
    apiKey: Option<string>,
    model: Option<string>,
    callType: Option<string>,
    usageKind: seq<string>,
    allowCompactionOverBudget: Option<bool>,
    anchors: Anchors)

  datatype UsageConfig = UsageConfig(
    utc: bool,
    allowCompactionOverBudget: bool,
    budgets: seq<UsageBudget>)

  /** A call asking for admission. */
  datatype Call = Call(
    provider: string,
    apiKeyName: Option<string>,
    model: string,
    callType: CallType,
    character: string)

  predicate ValidBudget(b: UsageBudget) {
    b.costUsd > 0.0 && b.anchors.Valid()
  }

  predicate IsSubscriptionProvider(provider: string) {
    provider == "opencode-go"
  }

  predicate CallTypeMatchesUsageKind(callType: CallType, usageKind: string) {
    match callType
    case Message => usageKind == "message" || usageKind == "message_no_tools" || usageKind == "message_with_tools"
    case ToolLoop => usageKind == "message_with_tools" || usageKind == "tool_loop"
    case HeartbeatToolLoop => usageKind == "heartbeat"
    case Heartbeat => usageKind == "heartbeat"
    case Keepalive => usageKind == "keepalive"
    case Compaction => usageKind == "compaction"
    case Dreaming => usageKind == "dreaming"
    case MemoryQuery => usageKind == "memory_query"
    case Subagent => usageKind == "subagent"
  }

  predicate ScopeMatches(b: UsageBudget, call: Call) {
    && (b.character.Some? ==> b.character.value == call.character)
    && (b.provider.Some? ==> b.provider.value == call.provider)
    && (b.model.Some? ==> b.model.value == call.model)
    && (b.callType.Some? ==> b.callType.value == call.callType.Name())
    && (b.apiKey.Some? ==> b.apiKey.value == call.apiKeyName.GetOr("unknown"))
  }

  predicate BudgetMatchesCall(b: UsageBudget, call: Call) {
    && ScopeMatches(b, call)
    && (b.usageKind == [] ||
        exists i :: 0 <= i < |b.usageKind| && CallTypeMatchesUsageKind(call.callType, b.usageKind[i]))
  }

  predicate CompactionAllowed(config: UsageConfig, b: UsageBudget) {
    b.allowCompactionOverBudget.GetOr(config.allowCompactionOverBudget)
  }

  predicate IsBackgroundCall(callType: CallType) {
    callType.Heartbeat? || callType.HeartbeatToolLoop? || callType.Keepalive? ||
    callType.Compaction? || callType.Dreaming? || callType.MemoryQuery?
  }

  predicate ShouldBlock(config: UsageConfig, b: UsageBudget, callType: CallType) {
    if callType.Compaction? && CompactionAllowed(config, b) then false
    else match b.limit
      case Warn => false
      case Block => true
      case PauseBackground => IsBackgroundCall(callType)
  }

  /** What is summed for a budget whose window started at `start`. There is no upper bound. */
  function FilterForBudget(b: UsageBudget, start: int): QueryFilter {
    QueryFilter(Some(start), None, b.character, b.provider, b.apiKey, b.model, b.callType, b.usageKind)
  }

  function CurrentCost(b: UsageBudget, start: int, rows: seq<CallRow>): real {
    TotalCost(rows, FilterForBudget(b, start))
  }

  /** When the window of a budget that contains `now` started, on the clock `off`. */
  ghost function StartOf(off: LocalTime.Offsets, config: UsageConfig, b: UsageBudget, now: int): int {
    if config.utc then PeriodStart(now, b.period, Some(b.anchors))
    else LocalTime.WindowStart(off, now, b.period, Some(b.anchors))
  }

  // ----- the gate -----

  /** One budget keeps a call out: it matches, could be queried, is over its limit, and enforces it. */
  predicate Blocks(config: UsageConfig, i: nat, call: Call, rows: seq<CallRow>, starts: seq<int>, failing: set<nat>)
    requires i < |config.budgets| == |starts|
  {
    var b := config.budgets[i];
    && BudgetMatchesCall(b, call)
    && i !in failing
    && CurrentCost(b, starts[i], rows) >= b.costUsd
    && ShouldBlock(config, b, call.callType)
  }

  predicate Admits(config: UsageConfig, call: Call, rows: seq<CallRow>, starts: seq<int>, failing: set<nat>)
    requires |config.budgets| == |starts|
  {
    IsSubscriptionProvider(call.provider) ||
    forall i :: 0 <= i < |starts| ==> !Blocks(config, i, call, rows, starts, failing)
  }

  datatype BudgetBlock = BudgetBlock(index: nat, currentCost: real)

  /**
   * Checks the budgets in order. The call is let through exactly when no budget blocks it;
   * otherwise the error names the first one that does, with its cost so far.
   * `failing` are the budgets whose query fails, which are passed over.
   */
  method EnforceBudgetForCall(config: UsageConfig, call: Call, rows: seq<CallRow>, starts: seq<int>, failing: set<nat>)
    returns (r: Result<(), BudgetBlock>)
    requires |config.budgets| == |starts|
    ensures r.Ok? <==> Admits(config, call, rows, starts, failing)
    ensures r.Err? ==>
      && r.error.index < |starts|
      && Blocks(config, r.error.index, call, rows, starts, failing)
      && (forall i :: 0 <= i < r.error.index ==> !Blocks(config, i, call, rows, starts, failing))
      && r.error.currentCost == CurrentCost(config.budgets[r.error.index], starts[r.error.index], rows)
  {
    if config.budgets == [] {
      return Ok(());
    }
    if IsSubscriptionProvider(call.provider) {
      return Ok(());
    }
    for i := 0 to |config.budgets|
      invariant forall j :: 0 <= j < i ==> !Blocks(config, j, call, rows, starts, failing)
    {
      var b := config.budgets[i];
      if !BudgetMatchesCall(b, call) {
        continue;
      }
      if i in failing {
        continue;
      }
      var cost := UsageTotals(rows, FilterForBudget(b, starts[i]));
      if cost >= b.costUsd && ShouldBlock(config, b, call.callType) {
        assert Blocks(config, i, call, rows, starts, failing);
        return Err(BudgetBlock(i, cost));
      }
    }
    return Ok(());
  }

  // ----- what the gate does, by action and kind of call -----

  /** The budget is about the call, its query succeeds, and its limit is reached. */
  predicate IsOver(config: UsageConfig, i: nat, call: Call, rows: seq<CallRow>, starts: seq<int>, failing: set<nat>)
    requires i < |config.budgets| == |starts|
  {
    var b := config.budgets[i];
    BudgetMatchesCall(b, call) && i !in failing && CurrentCost(b, starts[i], rows) >= b.costUsd
  }

  /** The budget's own setting of the exemption, or else the general one. */
  predicate ExemptsCompaction(config: UsageConfig, b: UsageBudget) {
    b.allowCompactionOverBudget == Some(true) ||
    (b.allowCompactionOverBudget == None && config.allowCompactionOverBudget)
  }

  /**
   * A call is let through exactly if every budget that is over its limit only warns, or pauses
   * just background calls while this is a message, a tool loop of one or a subagent, or exempts
   * compactions while this is one.
   */
  lemma LetThroughIff(config: UsageConfig, call: Call, rows: seq<CallRow>, starts: seq<int>, failing: set<nat>)
    requires |config.budgets| == |starts|
    ensures Admits(config, call, rows, starts, failing) <==>
      || call.provider == "opencode-go"
      || forall i {:trigger config.budgets[i]} | 0 <= i < |starts| && IsOver(config, i, call, rows, starts, failing) ::
           || config.budgets[i].limit == Warn
           || (config.budgets[i].limit == PauseBackground && call.callType in {Message, ToolLoop, Subagent})
           || (call.callType == Compaction && ExemptsCompaction(config, config.budgets[i]))
  {
    forall i | 0 <= i < |starts|
      ensures Blocks(config, i, call, rows, starts, failing) <==>
        && IsOver(config, i, call, rows, starts, failing)
        && config.budgets[i].limit != Warn
        && (config.budgets[i].limit == PauseBackground ==> call.callType !in {Message, ToolLoop, Subagent})
        && (call.callType == Compaction ==> !ExemptsCompaction(config, config.budgets[i]))
    {
      hide BudgetMatchesCall, CurrentCost;
    }
    hide Blocks, IsOver, ExemptsCompaction;
  }

  // ----- the row a call leaves -----

  /** What is known of a finished call besides the call itself. */
  datatype Outcome = Outcome(finishReason: string, reportedCost: Option<real>, pricedCost: Option<real>)

  /** The cost recorded: nothing for a subscription, else the provider's total, else our estimate. */
  function RecordedCost(call: Call, o: Outcome): Option<real> {
    var subscription := IsSubscriptionProvider(call.provider);
    var reported := if subscription then None else o.reportedCost;
    var priced := if subscription then None else o.pricedCost;
    reported.OrElse(priced).OrElse(if subscription then Some(0.0) else None)
  }

  function BuildCallRow(call: Call, o: Outcome, ts: int): CallRow {
    CallRow(ts, call.character, call.provider, call.apiKeyName, call.model, call.callType.Name(),
            o.finishReason, RecordedCost(call, o))
  }

  /**
   * The cost on record: nothing for the flat-rate provider; otherwise the total that the
   * provider reported, else the estimate, else none, which counts as zero.
   */
  lemma CostIsReportedFirst(call: Call, o: Outcome, ts: int)
    ensures var row := BuildCallRow(call, o, ts);
            && (call.provider == "opencode-go" ==> CostOf(row) == 0.0)
            && (call.provider != "opencode-go" && o.reportedCost.Some? ==> CostOf(row) == o.reportedCost.value)
            && (call.provider != "opencode-go" && o.reportedCost.None? && o.pricedCost.Some? ==>
                  CostOf(row) == o.pricedCost.value)
            && (call.provider != "opencode-go" && o.reportedCost.None? && o.pricedCost.None? ==>
                  row.totalCost.None? && CostOf(row) == 0.0)
  {
  }

  // ----- gate and ledger agree -----

  /** The usage kinds of the rows a call may leave are among those the gate matches it to. */
  lemma KindOfRow(call: Call, o: Outcome, ts: int)
    ensures CallTypeMatchesUsageKind(call.callType, UsageKind(BuildCallRow(call, o, ts)))
  {
  }

  /** Every usage kind the gate matches a call to, except two, is the kind of a row it may leave. */
  lemma RowOfKind(callType: CallType, kind: string) returns (reason: string)
    requires CallTypeMatchesUsageKind(callType, kind)
    requires !(callType.Message? && kind == "message") && !(callType.ToolLoop? && kind == "tool_loop")
    ensures forall call: Call, o: Outcome, ts: int {:trigger BuildCallRow(call, o, ts)} ::
      call.callType == callType && o.finishReason == reason ==> UsageKind(BuildCallRow(call, o, ts)) == kind
  {
    reason := if kind == "message_with_tools" then "tool_use" else "end_turn";
    assert callType.Message? && kind == "message_no_tools" ==> reason != "tool_use";
  }

  /** A row left by a call has the columns of the call. */
  lemma ScopeOfRow(b: UsageBudget, call: Call, o: Outcome, ts: int, start: int)
    ensures Satisfies(FilterForBudget(b, start), BuildCallRow(call, o, ts)) <==>
      && start <= ts
      && ScopeMatches(b, call)
      && (b.usageKind != [] ==> UsageKind(BuildCallRow(call, o, ts)) in b.usageKind)
  {
    hide UsageKind;
  }

  /**
   * The gate covers what is counted: a call whose row the budget's WHERE clause selects was
   * matched by the budget at admission, however the call ended.
   */
  lemma GateCoversCounted(b: UsageBudget, call: Call, o: Outcome, ts: int, start: int)
    requires Satisfies(FilterForBudget(b, start), BuildCallRow(call, o, ts))
    ensures BudgetMatchesCall(b, call)
  {
    hide CallTypeMatchesUsageKind, UsageKind, Satisfies;
    ScopeOfRow(b, call, o, ts, start);
    KindOfRow(call, o, ts);
    if b.usageKind != [] {
      var i :| 0 <= i < |b.usageKind| && b.usageKind[i] == UsageKind(BuildCallRow(call, o, ts));
    }
  }

  /** Kinds the gate knows but no row ever has: plain `message` and plain `tool_loop`. */
  predicate MatchedByNominalKindOnly(b: UsageBudget, call: Call) {
    && ScopeMatches(b, call) && b.usageKind != []
    && (forall i :: 0 <= i < |b.usageKind| && CallTypeMatchesUsageKind(call.callType, b.usageKind[i]) ==>
          || (call.callType.Message? && b.usageKind[i] == "message")
          || (call.callType.ToolLoop? && b.usageKind[i] == "tool_loop"))
  }

  /**
   * Conversely the gate matches a call only if some way of ending it would be counted, or
   * if the budget names it by a usage kind that is never recorded.
   */
  lemma GateMatchesOnlyCounted(b: UsageBudget, call: Call, start: int, ts: int)
    requires start <= ts
    ensures BudgetMatchesCall(b, call) && !MatchedByNominalKindOnly(b, call) <==>
      exists o: Outcome :: Satisfies(FilterForBudget(b, start), BuildCallRow(call, o, ts))
  {
    hide CallTypeMatchesUsageKind, UsageKind, Satisfies, BuildCallRow, FilterForBudget;
    if BudgetMatchesCall(b, call) && !MatchedByNominalKindOnly(b, call) {
      var o := CountedOutcome(b, call, start, ts);
    }
    if o: Outcome :| Satisfies(FilterForBudget(b, start), BuildCallRow(call, o, ts)) {
      GateCoversCounted(b, call, o, ts, start);
      ScopeOfRow(b, call, o, ts, start);
      if b.usageKind != [] {
        KindOfRow(call, o, ts);
        RowKindIsNotNominal(call, o, ts);
        var i :| 0 <= i < |b.usageKind| && b.usageKind[i] == UsageKind(BuildCallRow(call, o, ts));
      }
    }
  }

  lemma RowKindIsNotNominal(call: Call, o: Outcome, ts: int)
    ensures call.callType.Message? ==> UsageKind(BuildCallRow(call, o, ts)) != "message"
    ensures call.callType.ToolLoop? ==> UsageKind(BuildCallRow(call, o, ts)) != "tool_loop"
  {
  }

  lemma CountedOutcome(b: UsageBudget, call: Call, start: int, ts: int) returns (o: Outcome)
    requires BudgetMatchesCall(b, call) && !MatchedByNominalKindOnly(b, call) && start <= ts
    ensures Satisfies(FilterForBudget(b, start), BuildCallRow(call, o, ts))
  {
    hide CallTypeMatchesUsageKind, UsageKind, Satisfies;
    o := Outcome("end_turn", None, None);
    if b.usageKind != [] {
      var i :| 0 <= i < |b.usageKind| && CallTypeMatchesUsageKind(call.callType, b.usageKind[i])
            && !(call.callType.Message? && b.usageKind[i] == "message")
            && !(call.callType.ToolLoop? && b.usageKind[i] == "tool_loop");
      var reason := RowOfKind(call.callType, b.usageKind[i]);
      o := Outcome(reason, None, None);
      assert UsageKind(BuildCallRow(call, o, ts)) == b.usageKind[i];
    }
    ScopeOfRow(b, call, o, ts, start);
  }

  /** The call agrees with every restriction of the budget. */
  predicate Agrees(b: UsageBudget, call: Call) {
    && b.character.GetOr(call.character) == call.character
    && b.provider.GetOr(call.provider) == call.provider
    && b.model.GetOr(call.model) == call.model
    && b.callType.GetOr(call.callType.Name()) == call.callType.Name()
    && b.apiKey.GetOr(call.apiKeyName.GetOr("unknown")) == call.apiKeyName.GetOr("unknown")
  }

  /**
   * A budget neither gates nor counts a call that differs from it in any of the five columns it
   * may be restricted by. Without a restriction by usage kind it gates all others, and counts
   * them from the start of its window on.
   */
  lemma RestrictionsDecide(b: UsageBudget, call: Call, o: Outcome, ts: int, start: int)
    ensures !Agrees(b, call) ==>
              !BudgetMatchesCall(b, call) && !Satisfies(FilterForBudget(b, start), BuildCallRow(call, o, ts))
    ensures b.usageKind == [] && Agrees(b, call) ==>
              && BudgetMatchesCall(b, call)
              && (Satisfies(FilterForBudget(b, start), BuildCallRow(call, o, ts)) <==> start <= ts)
  {
    ScopeOfRow(b, call, o, ts, start);
    hide Satisfies, UsageKind, BuildCallRow, CallTypeMatchesUsageKind;
  }

  /** Calls on a flat-rate plan skip the gate, and add nothing to any budget. */
  lemma SubscriptionIsFree(call: Call, o: Outcome, ts: int)
    requires IsSubscriptionProvider(call.provider)
    ensures CostOf(BuildCallRow(call, o, ts)) == 0.0
    ensures forall config: UsageConfig, rows: seq<CallRow>, starts: seq<int>, failing: set<nat> ::
              |config.budgets| == |starts| ==> Admits(config, call, rows, starts, failing)
  {
  }

  // ----- the two sums of spike detection -----

  /**
   * The current sum starts where the previous one ends, and that end is inclusive: together
   * they count every row from the previous start on once, and rows exactly at the boundary twice.
   */
  lemma {:induction false} SpikeSums(rows: seq<CallRow>, previous: int, current: int)
    requires previous <= current
    ensures var all := QueryFilter(None, None, None, None, None, None, None, []);
            TotalCost(rows, all.(since := Some(previous), until := Some(current)))
              + TotalCost(rows, all.(since := Some(current)))
            == TotalCost(rows, all.(since := Some(previous)))
              + TotalCost(rows, all.(since := Some(current), until := Some(current)))
  {
    if rows != [] {
      SpikeSums(rows[..|rows| - 1], previous, current);
    }
  }
}
