/**
 * Filters over the call ledger: a small compiler from a filter to a WHERE clause with
 * numbered placeholders, and the cost total of the rows it selects.
 */
module Query {
  import opened Common

  /** One recorded call. `totalCost` is null when the call could not be priced. */
  datatype CallRow = CallRow(
    ts: int,
    character: string,
    provider: string,
    apiKeyName: Option<string>,
    model: string,
    callType: string,
    finishReason: string,
    totalCost: Option<real>)

  datatype QueryFilter = QueryFilter(
    since: Option<int>,
    until: Option<int>,
    character: Option<string>,
    provider: Option<string>,
    apiKeyName: Option<string>,
    model: Option<string>,
    callType: Option<string>,
    usageKinds: seq<string>)

  /** The usage kind of a row: how its call type and finish reason are reported together. */
  function UsageKind(row: CallRow): string {
    if row.callType == "heartbeat_tool_loop" then "heartbeat"
    else if row.callType == "message" && row.finishReason == "tool_use" then "message_with_tools"
    else if row.callType == "tool_loop" then "message_with_tools"
    else if row.callType == "message" then "message_no_tools"
    else row.callType
  }

  /** What the fields of a filter ask of a row. */
  predicate Satisfies(f: QueryFilter, row: CallRow) {
    && (f.since.Some? ==> f.since.value <= row.ts)
    && (f.until.Some? ==> row.ts <= f.until.value)
    && (f.character.Some? ==> row.character == f.character.value)
    && (f.provider.Some? ==> row.provider == f.provider.value)
    && (f.apiKeyName.Some? ==> row.apiKeyName.GetOr("unknown") == f.apiKeyName.value)
    && (f.model.Some? ==> row.model == f.model.value)
    && (f.callType.Some? ==> row.callType == f.callType.value)
    && (f.usageKinds != [] ==> UsageKind(row) in f.usageKinds)
  }

  // ----- the SQL the filter is compiled to -----

  datatype SqlValue = Stamp(t: int) | Text(s: string)

  datatype Expr = Ts | Character | Provider | ApiKeyOrUnknown | Model | CallTypeCol | UsageKindCase

  datatype Op = AtLeast | AtMost | Equals

  /** A conjunct; a parameter `n` stands for the placeholder `?n`, counted from one. */
  datatype Clause =
    | Compare(lhs: Expr, op: Op, param: nat)
    | OneOf(lhs: Expr, params: seq<nat>)

  function EvalExpr(e: Expr, row: CallRow): SqlValue {
    match e
    case Ts => Stamp(row.ts)
    case Character => Text(row.character)
    case Provider => Text(row.provider)
    case ApiKeyOrUnknown => Text(row.apiKeyName.GetOr("unknown"))
    case Model => Text(row.model)
    case CallTypeCol => Text(row.callType)
    case UsageKindCase => Text(UsageKind(row))
  }

  predicate Related(op: Op, a: SqlValue, b: SqlValue) {
    match op
    case AtLeast => a.Stamp? && b.Stamp? && b.t <= a.t
    case AtMost => a.Stamp? && b.Stamp? && a.t <= b.t
    case Equals => a == b
  }

  /** An unbound placeholder is NULL, and no comparison with NULL holds. */
  predicate Bound(values: seq<SqlValue>, n: nat) {
    1 <= n <= |values|
  }

  predicate IsValue(values: seq<SqlValue>, n: nat, v: SqlValue) {
    Bound(values, n) && v == values[n - 1]
  }

  predicate ClauseHolds(c: Clause, values: seq<SqlValue>, row: CallRow) {
    match c
    case Compare(lhs, op, n) => Bound(values, n) && Related(op, EvalExpr(lhs, row), values[n - 1])
    case OneOf(lhs, params) => exists i :: 0 <= i < |params| && IsValue(values, params[i], EvalExpr(lhs, row))
  }

  predicate WhereHolds(clauses: seq<Clause>, values: seq<SqlValue>, row: CallRow) {
    forall i :: 0 <= i < |clauses| ==> ClauseHolds(clauses[i], values, row)
  }

  function Params(c: Clause): seq<nat> {
    match c
    case Compare(_, _, n) => [n]
    case OneOf(_, params) => params
  }

  /** All placeholders in the order they appear in the statement. */
  function Placeholders(clauses: seq<Clause>): seq<nat> {
    if clauses == [] then [] else Placeholders(clauses[..|clauses| - 1]) + Params(clauses[|clauses| - 1])
  }

  function UpTo(n: nat): (s: seq<nat>)
    ensures |s| == n && forall i :: 0 <= i < n ==> s[i] == i + 1
  {
    seq(n, i requires 0 <= i < n => i + 1)
  }

  /** The placeholders read ?1, ?2, ... without gap or repetition, one for every bound value. */
  predicate WellNumbered(clauses: seq<Clause>, values: seq<SqlValue>) {
    Placeholders(clauses) == UpTo(|values|)
  }

  lemma {:induction false} PlaceholdersOf(clauses: seq<Clause>, i: nat, n: nat)
    requires i < |clauses| && n in Params(clauses[i])
    ensures n in Placeholders(clauses)
  {
    if i < |clauses| - 1 { PlaceholdersOf(clauses[..|clauses| - 1], i, n); }
  }

  /** Binding one more batch of values for one more clause leaves the other clauses as they were. */
  lemma AppendClause(clauses: seq<Clause>, values: seq<SqlValue>, c: Clause, more: seq<SqlValue>, row: CallRow)
    requires WellNumbered(clauses, values)
    ensures WhereHolds(clauses + [c], values + more, row)
       <==> WhereHolds(clauses, values, row) && ClauseHolds(c, values + more, row)
  {
    forall i | 0 <= i < |clauses|
      ensures ClauseHolds(clauses[i], values + more, row) <==> ClauseHolds(clauses[i], values, row)
    {
      forall n | n in Params(clauses[i])
        ensures Bound(values, n) && (values + more)[n - 1] == values[n - 1]
      {
        PlaceholdersOf(clauses, i, n);
      }
    }
    assert forall i :: 0 <= i < |clauses| ==> (clauses + [c])[i] == clauses[i];
    assert (clauses + [c])[|clauses|] == c;
  }

  predicate FieldOk(lhs: Expr, op: Op, v: Option<SqlValue>, row: CallRow) {
    v.Some? ==> Related(op, EvalExpr(lhs, row), v.value)
  }

  /** Adds `lhs op ?n` for an optional field, bound to its value. */
  method PushCompare(clauses: seq<Clause>, values: seq<SqlValue>, lhs: Expr, op: Op, v: Option<SqlValue>)
    returns (clauses': seq<Clause>, values': seq<SqlValue>)
    requires WellNumbered(clauses, values)
    ensures WellNumbered(clauses', values')
    ensures forall row :: WhereHolds(clauses', values', row)
                     <==> WhereHolds(clauses, values, row) && FieldOk(lhs, op, v, row)
  {
    if v.None? {
      return clauses, values;
    }
    var c := Compare(lhs, op, |values| + 1);
    clauses' := clauses + [c];
    values' := values + [v.value];
    assert clauses'[..|clauses'| - 1] == clauses;
    forall row
      ensures WhereHolds(clauses', values', row)
         <==> WhereHolds(clauses, values, row) && Related(op, EvalExpr(lhs, row), v.value)
    {
      AppendClause(clauses, values, c, [v.value], row);
    }
  }

  function TextOf(v: Option<string>): Option<SqlValue> {
    if v.Some? then Some(Text(v.value)) else None
  }

  function StampOf(v: Option<int>): Option<SqlValue> {
    if v.Some? then Some(Stamp(v.value)) else None
  }

  /** Adds `usage_kind IN (?n, ...)` with one placeholder for each kind. */
  method PushUsageKinds(clauses: seq<Clause>, values: seq<SqlValue>, kinds: seq<string>)
    returns (clauses': seq<Clause>, values': seq<SqlValue>)
    requires WellNumbered(clauses, values) && kinds != []
    ensures WellNumbered(clauses', values')
    ensures forall row :: WhereHolds(clauses', values', row)
                     <==> WhereHolds(clauses, values, row) && UsageKind(row) in kinds
  {
    ghost var more: seq<SqlValue> := [];
    values' := values;
    var params: seq<nat> := [];
    for i := 0 to |kinds|
      invariant values' == values + more && |more| == |params| == i
      invariant forall j :: 0 <= j < i ==> more[j] == Text(kinds[j]) && params[j] == |values| + j + 1
    {
      values' := values' + [Text(kinds[i])];
      more := more + [Text(kinds[i])];
      params := params + [|values'|];
    }
    var c := OneOf(UsageKindCase, params);
    clauses' := clauses + [c];
    assert clauses'[..|clauses'| - 1] == clauses;
    assert Placeholders(clauses') == UpTo(|values'|);
    forall row
      ensures WhereHolds(clauses', values', row)
         <==> WhereHolds(clauses, values, row) && UsageKind(row) in kinds
    {
      AppendClause(clauses, values, c, more, row);
      KindAmong(params, values, more, kinds, row);
    }
  }

  lemma KindAmong(params: seq<nat>, values: seq<SqlValue>, more: seq<SqlValue>, kinds: seq<string>, row: CallRow)
    requires |more| == |params| == |kinds|
    requires forall j :: 0 <= j < |kinds| ==> more[j] == Text(kinds[j]) && params[j] == |values| + j + 1
    ensures ClauseHolds(OneOf(UsageKindCase, params), values + more, row) <==> UsageKind(row) in kinds
  {
    hide UsageKind;
    var all, v := values + more, EvalExpr(UsageKindCase, row);
    assert v == Text(UsageKind(row));
    forall i | 0 <= i < |params|
      ensures IsValue(all, params[i], v) <==> kinds[i] == UsageKind(row)
    {
      assert all[|values| + i] == more[i];
    }
    hide IsValue, EvalExpr;
  }

  /** A filter is the conjunction of what it asks of each column. */
  lemma SatisfiesByColumn(f: QueryFilter, row: CallRow)
    ensures Satisfies(f, row) <==>
      && FieldOk(Ts, AtLeast, StampOf(f.since), row)
      && FieldOk(Ts, AtMost, StampOf(f.until), row)
      && FieldOk(Character, Equals, TextOf(f.character), row)
      && FieldOk(Provider, Equals, TextOf(f.provider), row)
      && FieldOk(ApiKeyOrUnknown, Equals, TextOf(f.apiKeyName), row)
      && FieldOk(Model, Equals, TextOf(f.model), row)
      && FieldOk(CallTypeCol, Equals, TextOf(f.callType), row)
      && (f.usageKinds != [] ==> UsageKind(row) in f.usageKinds)
  {
    hide UsageKind;
  }

  /**
   * Compiles a filter. For every combination of fields the clause selects exactly the rows
   * that satisfy the filter, and its placeholders number the bound values one by one.
   */
  method BuildWhere(filter: QueryFilter) returns (clauses: seq<Clause>, values: seq<SqlValue>)
    ensures WellNumbered(clauses, values)
    ensures forall row :: WhereHolds(clauses, values, row) <==> Satisfies(filter, row)
  {
    clauses, values := [], [];
    assert WellNumbered(clauses, values);
    assert forall row :: WhereHolds(clauses, values, row);
    forall row { SatisfiesByColumn(filter, row); }
    hide WhereHolds, WellNumbered, UsageKind, FieldOk, Satisfies, StampOf, TextOf;
    clauses, values := PushCompare(clauses, values, Ts, AtLeast, StampOf(filter.since));
    clauses, values := PushCompare(clauses, values, Ts, AtMost, StampOf(filter.until));
    clauses, values := PushCompare(clauses, values, Character, Equals, TextOf(filter.character));
    clauses, values := PushCompare(clauses, values, Provider, Equals, TextOf(filter.provider));
    clauses, values := PushCompare(clauses, values, ApiKeyOrUnknown, Equals, TextOf(filter.apiKeyName));
    clauses, values := PushCompare(clauses, values, Model, Equals, TextOf(filter.model));
    clauses, values := PushCompare(clauses, values, CallTypeCol, Equals, TextOf(filter.callType));
    if filter.usageKinds != [] {
      clauses, values := PushUsageKinds(clauses, values, filter.usageKinds);
    }
  }

  // ----- totals -----

  function CostOf(row: CallRow): real {
    row.totalCost.GetOr(0.0)
  }

  /** The summed cost of the rows that satisfy a filter; unpriced rows add nothing. */
  function TotalCost(rows: seq<CallRow>, filter: QueryFilter): real {
    if rows == [] then 0.0
    else
      var row := rows[|rows| - 1];
      TotalCost(rows[..|rows| - 1], filter) + (if Satisfies(filter, row) then CostOf(row) else 0.0)
  }

  method UsageTotals(rows: seq<CallRow>, filter: QueryFilter) returns (cost: real)
    ensures cost == TotalCost(rows, filter)
  {
    var clauses, values := BuildWhere(filter);
    cost := 0.0;
    for i := 0 to |rows|
      invariant cost == TotalCost(rows[..i], filter)
    {
      assert rows[..i + 1][..i] == rows[..i];
      if WhereHolds(clauses, values, rows[i]) {
        cost := cost + CostOf(rows[i]);
      }
    }
    assert rows[..|rows|] == rows;
  }
}
