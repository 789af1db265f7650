/**
 * The ledger and the streams that write to it, as objects. A stream ends in one of three
 * ways: finalized with a result, finalized with an error, or dropped before either. Each
 * operation here is a step, or two, of the runs over which the overshoot bound holds.
 */
module LedgerClient {
  import opened Common
  import opened Query
  import opened Budget
  import opened BudgetRuns

  /** The ledger's rows. Which calls are in flight is known to no part of the program. */
  class Ledger {
    var rows: seq<CallRow>
    ghost var inFlight: seq<Call>

    constructor ()
      ensures rows == [] && inFlight == []
    {
      rows, inFlight := [], [];
    }

    ghost function At(now: int): State
      reads this
    {
      State(now, rows, inFlight)
    }
  }

  /** A provider error; only one kind comes with usage already reported. */
  datatype LlmError = StreamErrored(reportedCost: Option<real>, pricedCost: Option<real>) | OtherError

  datatype CallError = OverBudget(block: BudgetBlock) | Transport

  /** How the use of a stream ends. */
  datatype Ending = Finished(outcome: Outcome) | Failed(error: LlmError) | Cancelled

  /** The outcome with no usage at all; the estimate of no tokens is zero, if the model is priced. */
  function NoUsage(reason: string, isPriced: bool): Outcome {
    Outcome(reason, None, if isPriced then Some(0.0) else None)
  }

  function ErrorOutcome(e: LlmError, isPriced: bool): Outcome {
    match e
    case StreamErrored(reported, priced) => Outcome("error", reported, priced)
    case OtherError => NoUsage("error", isPriced)
  }

  /** What is recorded of a call that ends so. */
  function OutcomeOf(end: Ending, isPriced: bool): Outcome {
    match end
    case Finished(o) => o
    case Failed(e) => ErrorOutcome(e, isPriced)
    case Cancelled => NoUsage("cancelled", isPriced)
  }

  class LedgerStream {
    const meta: Call
    const ledger: Ledger
    const isPriced: bool
    var finalized: bool

    constructor (meta: Call, ledger: Ledger, isPriced: bool)
      ensures this.meta == meta && this.ledger == ledger && this.isPriced == isPriced && !finalized
    {
      this.meta, this.ledger, this.isPriced, finalized := meta, ledger, isPriced, false;
    }

    method RecordRow(o: Outcome, ts: int)
      modifies ledger`rows
      ensures ledger.rows == old(ledger.rows) + [BuildCallRow(meta, o, ts)]
    {
      ledger.rows := ledger.rows + [BuildCallRow(meta, o, ts)];
    }

    /** Does not look at `finalized`: a second call writes a second row. */
    method Finalize(o: Outcome, ts: int)
      modifies this`finalized, ledger`rows
      ensures finalized
      ensures ledger.rows == old(ledger.rows) + [BuildCallRow(meta, o, ts)]
    {
      RecordRow(o, ts);
      finalized := true;
    }

    method FinalizeError(e: LlmError, ts: int)
      modifies this`finalized, ledger`rows
      ensures finalized
      ensures ledger.rows == old(ledger.rows) + [BuildCallRow(meta, ErrorOutcome(e, isPriced), ts)]
    {
      if e.StreamErrored? {
        RecordRow(Outcome("error", e.reportedCost, e.pricedCost), ts);
      } else {
        RecordRow(NoUsage("error", isPriced), ts);
      }
      finalized := true;
    }

    method Drop(ts: int)
      modifies this`finalized, ledger`rows
      ensures finalized
      ensures old(finalized) ==> ledger.rows == old(ledger.rows)
      ensures !old(finalized) ==>
        ledger.rows == old(ledger.rows) + [BuildCallRow(meta, OutcomeOf(Cancelled, isPriced), ts)]
    {
      if finalized {
        return;
      }
      RecordRow(NoUsage("cancelled", isPriced), ts);
      finalized := true;
    }
  }

  /** A call of `finalize` or `finalize_error`, and when. */
  datatype Closing = Close(outcome: Outcome, ts: int) | CloseError(error: LlmError, ts: int)

  function RowOf(c: Closing, meta: Call, isPriced: bool): CallRow {
    BuildCallRow(meta, if c.Close? then c.outcome else ErrorOutcome(c.error, isPriced), c.ts)
  }

  method FinalizeBy(s: LedgerStream, c: Closing)
    modifies s`finalized, s.ledger`rows
    ensures s.finalized && s.ledger.rows == old(s.ledger.rows) + [RowOf(c, s.meta, s.isPriced)]
  {
    match c {
      case Close(o, ts) => s.Finalize(o, ts);
      case CloseError(e, ts) => s.FinalizeError(e, ts);
    }
  }

  function RowsOf(calls: seq<Closing>, meta: Call, isPriced: bool): (rows: seq<CallRow>)
    ensures |rows| == |calls| && forall i :: 0 <= i < |calls| ==> rows[i] == RowOf(calls[i], meta, isPriced)
  {
    if calls == [] then []
    else RowsOf(calls[..|calls| - 1], meta, isPriced) + [RowOf(calls[|calls| - 1], meta, isPriced)]
  }

  /** Nothing guards against further finalizations: each writes a row, and only without any the drop does. */
  method FinalizeAll(s: LedgerStream, calls: seq<Closing>, dropped: int)
    requires !s.finalized
    modifies s`finalized, s.ledger`rows
    ensures |s.ledger.rows| == |old(s.ledger.rows)| + Max(1, |calls|)
    ensures s.ledger.rows == old(s.ledger.rows) +
      if calls == [] then [BuildCallRow(s.meta, OutcomeOf(Cancelled, s.isPriced), dropped)]
      else RowsOf(calls, s.meta, s.isPriced)
  {
    hide RowOf, BuildCallRow;
    for i := 0 to |calls|
      invariant s.finalized <==> i > 0
      invariant s.ledger.rows == old(s.ledger.rows) + RowsOf(calls[..i], s.meta, s.isPriced)
    {
      assert calls[..i + 1][..i] == calls[..i];
      FinalizeBy(s, calls[i]);
    }
    assert calls[..|calls|] == calls;
    s.Drop(dropped);
  }

  /**
   * The use of one stream from its opening on: at most one finalization, then the drop. It
   * leaves exactly one row, and is a `Record` step for the call, in flight at `index`.
   */
  method UseStream(s: LedgerStream, end: Ending, now: int, ts: int, ghost w: World, ghost index: nat)
    requires !s.finalized && ts <= now
    requires index < |s.ledger.inFlight| && s.ledger.inFlight[index] == s.meta
    modifies s`finalized, s.ledger
    ensures s.finalized && |s.ledger.rows| == |old(s.ledger.rows)| + 1
    ensures var step := Step.Record(index, OutcomeOf(end, s.isPriced), ts);
            Enabled(w, old(s.ledger.At(now)), step) && s.ledger.At(now) == Next(w, old(s.ledger.At(now)), step)
  {
    match end {
      case Finished(o) => s.Finalize(o, ts);
      case Failed(e) => s.FinalizeError(e, ts);
      case Cancelled =>
    }
    s.Drop(ts);
    s.ledger.inFlight := Without(s.ledger.inFlight, index);
  }

  /**
   * The gate before a call, streaming or not; the queries of the budgets in `failing` fail. A
   * call over budget changes nothing; a call let through is an `Admit` step.
   */
  method EnforceUsageBudget(ledger: Ledger, config: UsageConfig, call: Call, starts: seq<int>, failing: set<nat>,
                            now: int, ghost w: World) returns (gate: Result<(), BudgetBlock>)
    requires w.config == config && starts == w.Starts(now)
    modifies ledger`inFlight
    ensures var before, admit := old(ledger.At(now)), Admit(call, failing);
            && (gate.Ok? <==> Enabled(w, before, admit))
            && ledger.At(now) == if gate.Ok? then Next(w, before, admit) else before
  {
    hide Admits;
    gate := EnforceBudgetForCall(config, call, ledger.rows, starts, failing);
    if gate.Ok? {
      ledger.inFlight := ledger.inFlight + [call];
    }
  }

  /**
   * Opens a stream for the call let through last, in flight at `index` by then. If the
   * transport fails, that is a `Lose` step.
   */
  method OpenStream(ledger: Ledger, call: Call, reachable: bool, isPriced: bool, now: int, ghost w: World,
                    ghost index: nat)
    returns (r: Result<LedgerStream, CallError>)
    requires index < |ledger.inFlight| && ledger.inFlight[index] == call
    modifies ledger`inFlight
    ensures reachable ==> r.Ok? && ledger.At(now) == old(ledger.At(now))
    ensures r.Ok? ==> fresh(r.value) && r.value.meta == call && r.value.ledger == ledger && !r.value.finalized
    ensures !reachable ==> r == Err(Transport) && ledger.At(now) == Next(w, old(ledger.At(now)), Lose(index))
  {
    if !reachable {
      ledger.inFlight := Without(ledger.inFlight, index);
      return Err(Transport);
    }
    var s := new LedgerStream(call, ledger, isPriced);
    r := Ok(s);
  }

  /** A streaming call up to the open stream, if nothing else happens while the transport is set up. */
  method StreamRaw(ledger: Ledger, config: UsageConfig, call: Call, starts: seq<int>, failing: set<nat>,
                   reachable: bool, isPriced: bool, now: int, ghost w: World)
    returns (r: Result<LedgerStream, CallError>)
    requires w.config == config && starts == w.Starts(now)
    modifies ledger`inFlight
    ensures var before, admit := old(ledger.At(now)), Admit(call, failing);
            if !Enabled(w, before, admit) then r.Err? && r.error.OverBudget? && ledger.At(now) == before
            else
              var admitted := Next(w, before, admit);
              && (r.Ok? <==> reachable)
              && ledger.At(now) == if reachable then admitted else Next(w, admitted, Lose(|before.inFlight|))
    ensures r.Ok? ==> fresh(r.value) && r.value.meta == call && r.value.ledger == ledger && !r.value.finalized
  {
    ghost var index := |ledger.inFlight|;
    var gate := EnforceUsageBudget(ledger, config, call, starts, failing, now, w);
    if gate.Err? {
      return Err(OverBudget(gate.error));
    }
    hide Enabled;
    r := OpenStream(ledger, call, reachable, isPriced, now, w, index);
  }

  /**
   * The reply to a non-streaming call that was let through earlier: its row is a `Record`
   * step, and a failed request leaves none and is a `Lose` step. Any other steps may have
   * come between; `index` is where the call is in flight by now.
   */
  method GenerateReplied(ledger: Ledger, call: Call, reply: Option<Outcome>, now: int, ts: int, ghost w: World,
                         ghost index: nat)
    returns (r: Result<(), CallError>)
    requires index < |ledger.inFlight| && ledger.inFlight[index] == call && ts <= now
    modifies ledger
    ensures var before := old(ledger.At(now));
            var step := if reply.Some? then Step.Record(index, reply.value, ts) else Lose(index);
            Enabled(w, before, step) && ledger.At(now) == Next(w, before, step)
    ensures if reply.Some? then r.Ok? else r == Err(Transport)
  {
    ledger.inFlight := Without(ledger.inFlight, index);
    if reply.None? {
      return Err(Transport);
    }
    ledger.rows := ledger.rows + [BuildCallRow(call, reply.value, ts)];
    r := Ok(());
  }

  /** A failed call whose provider had reported usage is on record with it, and costs what was reported. */
  lemma BilledErrorsCount(call: Call, reported: Option<real>, priced: Option<real>, isPriced: bool, ts: int)
    requires call.provider != "opencode-go"
    ensures var row := BuildCallRow(call, OutcomeOf(Failed(StreamErrored(reported, priced)), isPriced), ts);
            row.finishReason == "error" && CostOf(row) == reported.GetOr(priced.GetOr(0.0))
  {
  }

  /** A call that never got to report usage is on record but costs nothing. */
  lemma UnbilledEndingsAreFree(call: Call, end: Ending, isPriced: bool, ts: int)
    requires end.Cancelled? || (end.Failed? && end.error.OtherError?)
    ensures CostOf(BuildCallRow(call, OutcomeOf(end, isPriced), ts)) == 0.0
    ensures BuildCallRow(call, OutcomeOf(end, isPriced), ts).finishReason ==
            if end.Cancelled? then "cancelled" else "error"
  {
  }
}
