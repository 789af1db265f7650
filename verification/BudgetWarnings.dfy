/**
 * Warning thresholds of usage budgets. Each crossed threshold is remembered per budget and
 * window so that it is announced once; being over the limit is announced every time.
 */
module BudgetWarnings {
  import opened Common

  datatype BudgetStatus = BudgetStatus(
    name: string,
    periodStart: int,
    crossedWarnAt: seq<real>,
    overLimit: bool)

  datatype WarningEvent = WarningEvent(budget: string, periodStart: int, crossedWarnAt: seq<real>)

  /** A threshold rounded to six decimals, ties to even: the text under which it is stored. */
  function ThresholdKey(threshold: real): int {
    var scaled := threshold * 1000000.0;
    var down := scaled.Floor;
    var rest := scaled - down as real;
    if rest < 0.5 || (rest == 0.5 && down % 2 == 0) then down else down + 1
  }

  /** A row of the table of warnings already given. */
  datatype WarningKey = WarningKey(budget: string, periodStart: int, threshold: int)

  function KeyOf(s: BudgetStatus, threshold: real): WarningKey {
    WarningKey(s.name, s.periodStart, ThresholdKey(threshold))
  }

  // ----- the thresholds a status reports as crossed -----

  const EPSILON: real := 0.0000000000000002220446049250313

  function Insert(x: real, s: seq<real>): seq<real> {
    if s == [] || x <= s[0] then [x] + s else [s[0]] + Insert(x, s[1..])
  }

  function Sort(s: seq<real>): seq<real> {
    if s == [] then [] else Insert(s[|s| - 1], Sort(s[..|s| - 1]))
  }

  function Dedup(s: seq<real>): seq<real> {
    if |s| <= 1 then s
    else
      var front := Dedup(s[..|s| - 1]);
      var x := s[|s| - 1];
      if front != [] && Abs(x - front[|front| - 1]) < EPSILON then front else front + [x]
  }

  function Abs(x: real): real {
    if x < 0.0 then -x else x
  }

  function Crossed(thresholds: seq<real>, percentUsed: real): seq<real> {
    if thresholds == [] then []
    else
      var t := thresholds[|thresholds| - 1];
      Crossed(thresholds[..|thresholds| - 1], percentUsed) + (if percentUsed >= t then [t] else [])
  }

  function StatusOf(name: string, periodStart: int, warnAt: seq<real>, cost: real, limit: real): BudgetStatus
    requires limit > 0.0
  {
    BudgetStatus(name, periodStart, Crossed(Dedup(Sort(warnAt)), cost / limit), cost >= limit)
  }

  lemma {:induction false} InsertKeeps(x: real, s: seq<real>, y: real)
    ensures y in Insert(x, s) <==> y == x || y in s
  {
    if s != [] && x > s[0] { InsertKeeps(x, s[1..], y); }
  }

  lemma {:induction false} SortKeeps(s: seq<real>, y: real)
    ensures y in Sort(s) <==> y in s
  {
    if s != [] {
      InsertKeeps(s[|s| - 1], Sort(s[..|s| - 1]), y);
      SortKeeps(s[..|s| - 1], y);
      assert s == s[..|s| - 1] + [s[|s| - 1]];
    }
  }

  predicate Apart(s: seq<real>) {
    forall i, j :: 0 <= i < j < |s| ==> s[i] == s[j] || Abs(s[j] - s[i]) >= EPSILON
  }

  lemma {:induction false} DedupLast(s: seq<real>)
    requires s != [] && Apart(s)
    ensures Dedup(s) != [] && Dedup(s)[|Dedup(s)| - 1] == s[|s| - 1]
  {
    hide Abs;
    if |s| > 1 {
      DedupLast(s[..|s| - 1]);
      assert s[..|s| - 1][|s| - 2] == s[|s| - 2];
    }
  }

  /** Thresholds further apart than rounding error all survive deduplication. */
  lemma {:induction false} DedupKeeps(s: seq<real>, y: real)
    requires Apart(s)
    ensures y in Dedup(s) <==> y in s
  {
    hide Abs;
    if |s| > 1 {
      var front, x := s[..|s| - 1], s[|s| - 1];
      assert s == front + [x];
      DedupKeeps(front, y);
      DedupLast(s);
    }
  }

  lemma {:induction false} CrossedAre(ts: seq<real>, percentUsed: real, y: real)
    ensures y in Crossed(ts, percentUsed) <==> y in ts && percentUsed >= y
  {
    if ts != [] {
      CrossedAre(ts[..|ts| - 1], percentUsed, y);
      assert ts == ts[..|ts| - 1] + [ts[|ts| - 1]];
    }
  }

  /** A configured threshold is reported as crossed exactly when that share of the limit is spent. */
  lemma StatusReportsCrossed(name: string, periodStart: int, warnAt: seq<real>, cost: real, limit: real, y: real)
    requires limit > 0.0
    requires forall a, b :: a in warnAt && b in warnAt ==> a == b || Abs(a - b) >= EPSILON
    ensures y in StatusOf(name, periodStart, warnAt, cost, limit).crossedWarnAt <==> y in warnAt && cost >= y * limit
  {
    hide Abs, Sort, Dedup, Crossed;
    var sorted := Sort(warnAt);
    forall x ensures x in sorted <==> x in warnAt { SortKeeps(warnAt, x); }
    forall i, j | 0 <= i < j < |sorted|
      ensures sorted[i] == sorted[j] || Abs(sorted[j] - sorted[i]) >= EPSILON
    {
      assert sorted[i] in sorted && sorted[j] in sorted;
    }
    DedupKeeps(sorted, y);
    CrossedAre(Dedup(Sort(warnAt)), cost / limit, y);
    ShareOfLimit(cost, limit, y);
  }

  lemma ShareOfLimit(cost: real, limit: real, y: real)
    requires limit > 0.0
    ensures cost / limit >= y <==> cost >= y * limit
  {
    assert cost == cost / limit * limit;
    if cost / limit >= y { Monotone(y, cost / limit, limit); }
    if cost / limit < y { StrictlyMonotone(cost / limit, y, limit); }
  }

  lemma Monotone(a: real, b: real, c: real)
    requires a <= b && c > 0.0
    ensures a * c <= b * c
  {
  }

  lemma StrictlyMonotone(a: real, b: real, c: real)
    requires a < b && c > 0.0
    ensures a * c < b * c
  {
  }

  /** A status is over its limit exactly if that much is spent; so is a threshold of 1.0 crossed. */
  lemma StatusIsOver(name: string, periodStart: int, warnAt: seq<real>, cost: real, limit: real)
    requires limit > 0.0
    requires forall a, b :: a in warnAt && b in warnAt ==> a == b || Abs(a - b) >= EPSILON
    ensures var s := StatusOf(name, periodStart, warnAt, cost, limit);
            && (s.overLimit <==> cost >= limit)
            && (1.0 in warnAt ==> (1.0 in s.crossedWarnAt <==> s.overLimit))
  {
    StatusReportsCrossed(name, periodStart, warnAt, cost, limit, 1.0);
    hide Crossed, Dedup, Sort;
  }

  /** From one entry to the next the list goes up by at least the rounding error. */
  predicate Ascends(s: seq<real>) {
    forall i :: 0 <= i < |s| - 1 ==> s[i] + EPSILON <= s[i + 1]
  }

  predicate Sorted(s: seq<real>) {
    forall i :: 0 <= i < |s| - 1 ==> s[i] <= s[i + 1]
  }

  lemma {:induction false} InsertSorts(x: real, s: seq<real>)
    requires Sorted(s)
    ensures Sorted(Insert(x, s)) && Insert(x, s)[0] == if s == [] || x <= s[0] then x else s[0]
  {
    if s != [] && x > s[0] {
      assert Sorted(s[1..]);
      InsertSorts(x, s[1..]);
    }
  }

  lemma {:induction false} SortSorts(s: seq<real>)
    ensures Sorted(Sort(s))
  {
    if s != [] {
      SortSorts(s[..|s| - 1]);
      InsertSorts(s[|s| - 1], Sort(s[..|s| - 1]));
    }
  }

  lemma {:induction false} DedupAscends(s: seq<real>)
    requires Sorted(s)
    ensures Ascends(Dedup(s)) && (s != [] ==> Dedup(s) != [] && Dedup(s)[|Dedup(s)| - 1] <= s[|s| - 1])
  {
    if |s| > 1 {
      var front := s[..|s| - 1];
      assert Sorted(front) && front[|front| - 1] == s[|s| - 2];
      DedupAscends(front);
    }
  }

  lemma {:induction false} CrossedAscends(ts: seq<real>, percentUsed: real)
    requires Ascends(ts)
    ensures Ascends(Crossed(ts, percentUsed))
    ensures Crossed(ts, percentUsed) != [] ==>
      ts != [] && Crossed(ts, percentUsed)[|Crossed(ts, percentUsed)| - 1] <= ts[|ts| - 1]
  {
    if ts != [] {
      var front := ts[..|ts| - 1];
      assert Ascends(front);
      CrossedAscends(front, percentUsed);
      assert front != [] ==> front[|front| - 1] == ts[|ts| - 2];
    }
  }

  /** The crossed thresholds are listed in ascending order, and none twice. */
  lemma CrossedInOrder(name: string, periodStart: int, warnAt: seq<real>, cost: real, limit: real)
    requires limit > 0.0
    ensures Ascends(StatusOf(name, periodStart, warnAt, cost, limit).crossedWarnAt)
  {
    SortSorts(warnAt);
    DedupAscends(Sort(warnAt));
    CrossedAscends(Dedup(Sort(warnAt)), cost / limit);
    hide Sort, Dedup, Crossed, Ascends;
  }

  /** The stored text is the nearest number of millionths, so that thresholds further apart have different ones. */
  lemma KeyIsNearest(a: real, b: real)
    ensures a * 1000000.0 - 0.5 <= ThresholdKey(a) as real <= a * 1000000.0 + 0.5
    ensures Abs(a - b) > 0.000001 ==> ThresholdKey(a) != ThresholdKey(b)
    ensures ThresholdKey(a) as real == a * 1000000.0 + 0.5 || ThresholdKey(a) as real == a * 1000000.0 - 0.5 ==>
              ThresholdKey(a) % 2 == 0
  {
  }

  // ----- one check, as a function -----

  type Table = set<WarningKey>

  /** The thresholds not seen before, in order, and the table with all of them in it. */
  function RecordAll(table: Table, s: BudgetStatus, thresholds: seq<real>): (r: (Table, seq<real>)) {
    if thresholds == [] then (table, [])
    else
      var t := thresholds[|thresholds| - 1];
      var (before, newly) := RecordAll(table, s, thresholds[..|thresholds| - 1]);
      if KeyOf(s, t) in before then (before, newly) else (before + {KeyOf(s, t)}, newly + [t])
  }

  /** The event for one status: what is new, or else the bare fact of being over the limit. */
  function EventFor(s: BudgetStatus, newly: seq<real>): seq<WarningEvent> {
    var listed := if newly == [] && s.overLimit then [1.0] else newly;
    if listed == [] then [] else [WarningEvent(s.name, s.periodStart, listed)]
  }

  function Check(table: Table, statuses: seq<BudgetStatus>): (Table, seq<WarningEvent>) {
    if statuses == [] then (table, [])
    else
      var s := statuses[|statuses| - 1];
      var (before, events) := Check(table, statuses[..|statuses| - 1]);
      var (after, newly) := RecordAll(before, s, s.crossedWarnAt);
      (after, events + EventFor(s, newly))
  }

  function KeysOf(s: BudgetStatus, thresholds: seq<real>): (keys: seq<WarningKey>)
    ensures |keys| == |thresholds|
  {
    seq(|thresholds|, i requires 0 <= i < |thresholds| => KeyOf(s, thresholds[i]))
  }

  /** What a check inserts, in order. */
  function Inserts(statuses: seq<BudgetStatus>): seq<WarningKey> {
    if statuses == [] then []
    else
      var s := statuses[|statuses| - 1];
      Inserts(statuses[..|statuses| - 1]) + KeysOf(s, s.crossedWarnAt)
  }

  function Recorded(table: Table, keys: seq<WarningKey>): Table {
    table + set k | k in keys
  }

  lemma RecordedNext(table: Table, keys: seq<WarningKey>, more: seq<WarningKey>)
    ensures Recorded(table, keys + more) == Recorded(Recorded(table, keys), more)
  {
  }

  lemma {:induction false} RecordAllRecords(table: Table, s: BudgetStatus, thresholds: seq<real>)
    ensures RecordAll(table, s, thresholds).0 == Recorded(table, KeysOf(s, thresholds))
  {
    hide KeyOf;
    if thresholds != [] {
      var front, t := thresholds[..|thresholds| - 1], thresholds[|thresholds| - 1];
      RecordAllRecords(table, s, front);
      assert KeysOf(s, thresholds) == KeysOf(s, front) + [KeyOf(s, t)];
      RecordedNext(table, KeysOf(s, front), [KeyOf(s, t)]);
      hide KeysOf;
    }
  }

  /** A finished check has made all its inserts. */
  lemma {:induction false} CheckRecords(table: Table, statuses: seq<BudgetStatus>)
    ensures Check(table, statuses).0 == Recorded(table, Inserts(statuses))
  {
    if statuses != [] {
      var front, s := statuses[..|statuses| - 1], statuses[|statuses| - 1];
      CheckRecords(table, front);
      RecordAllRecords(Check(table, front).0, s, s.crossedWarnAt);
      RecordedNext(table, Inserts(front), KeysOf(s, s.crossedWarnAt));
      hide RecordAll, Recorded, KeysOf;
    }
  }

  datatype Failure = InsertFailed

  /** The inserts that still succeed after `done` of them; none given means that none fails. */
  function Remaining(left: Option<nat>, done: nat): Option<nat>
    requires left.Some? ==> done <= left.value
  {
    if left.Some? then Some(left.value - done) else None
  }

  /** The table of warnings given so far, updated by each check. */
  class WarningLedger {
    var table: Table

    constructor ()
      ensures table == {}
    {
      table := {};
    }

    method RecordBudgetWarningThreshold(s: BudgetStatus, threshold: real, fails: bool)
      returns (isNew: Result<bool, Failure>)
      modifies this
      ensures fails ==> isNew == Err(InsertFailed) && table == old(table)
      ensures !fails ==> isNew == Ok(KeyOf(s, threshold) !in old(table)) && table == old(table) + {KeyOf(s, threshold)}
    {
      if fails {
        return Err(InsertFailed);
      }
      isNew := Ok(KeyOf(s, threshold) !in table);
      table := table + {KeyOf(s, threshold)};
    }

    /** Records the crossed thresholds of a status and returns the new ones, unless an insert fails. */
    method RecordCrossed(s: BudgetStatus, left: Option<nat>) returns (r: Result<seq<real>, Failure>)
      modifies this
      ensures r.Ok? <==> left.None? || |s.crossedWarnAt| <= left.value
      ensures r.Ok? ==> (table, r.value) == RecordAll(old(table), s, s.crossedWarnAt)
      ensures r.Err? ==> table == Recorded(old(table), KeysOf(s, s.crossedWarnAt[..left.value]))
    {
      hide KeyOf, Recorded;
      var newly: seq<real> := [];
      for j := 0 to |s.crossedWarnAt|
        invariant (table, newly) == RecordAll(old(table), s, s.crossedWarnAt[..j])
        invariant left.Some? ==> j <= left.value
      {
        assert s.crossedWarnAt[..j + 1][..j] == s.crossedWarnAt[..j];
        ghost var sofar := table;
        var isNew := RecordBudgetWarningThreshold(s, s.crossedWarnAt[j], left == Some(j));
        if isNew.Err? {
          RecordAllRecords(old(table), s, s.crossedWarnAt[..j]);
          return Err(isNew.error);
        }
        assert !isNew.value ==> table == sofar;
        if isNew.value {
          newly := newly + [s.crossedWarnAt[j]];
        }
      }
      assert s.crossedWarnAt[..|s.crossedWarnAt|] == s.crossedWarnAt;
      r := Ok(newly);
    }

    /**
     * One check. If an insert fails the check is given up: what was inserted stays, and the
     * events gathered so far are lost.
     */
    method NewlyCrossedBudgetWarnings(statuses: seq<BudgetStatus>, left: Option<nat>)
      returns (r: Result<seq<WarningEvent>, Failure>)
      modifies this
      ensures r.Ok? <==> left.None? || |Inserts(statuses)| <= left.value
      ensures r.Ok? ==> (table, r.value) == Check(old(table), statuses)
      ensures r.Err? ==> table == Recorded(old(table), Inserts(statuses)[..left.value])
    {
      hide RecordAll, Recorded, KeysOf, KeyOf, Check, Inserts, EventFor;
      var events: seq<WarningEvent> := [];
      var rest := left;
      Nothing(table);
      for i := 0 to |statuses|
        invariant (table, events) == Check(old(table), statuses[..i])
        invariant left.Some? ==> |Inserts(statuses[..i])| <= left.value
        invariant rest == Remaining(left, |Inserts(statuses[..i])|)
      {
        var s := statuses[i];
        OneMoreStatus(old(table), statuses, i);
        var recorded := RecordCrossed(s, rest);
        if recorded.Err? {
          GivenUp(old(table), statuses, i, rest.value);
          return Err(recorded.error);
        }
        if rest.Some? {
          rest := Some(rest.value - |s.crossedWarnAt|);
        }
        events := Announce(s, recorded.value, events);
      }
      assert statuses[..|statuses|] == statuses;
      r := Ok(events);
    }
  }

  /** Adds the event for a status, if it gives rise to one. */
  method Announce(s: BudgetStatus, crossed: seq<real>, events: seq<WarningEvent>) returns (r: seq<WarningEvent>)
    ensures r == events + EventFor(s, crossed)
  {
    var newly := crossed;
    if newly == [] && s.overLimit {
      newly := newly + [1.0];
      assert newly == [1.0];
    }
    if newly == [] {
      assert events + [] == events;
      return events;
    }
    r := events + [WarningEvent(s.name, s.periodStart, newly)];
  }

  lemma Nothing(table: Table)
    ensures forall statuses: seq<BudgetStatus> :: statuses == [] ==>
              Check(table, statuses) == (table, []) && Inserts(statuses) == []
  {
  }

  lemma OneMoreStatus(table: Table, statuses: seq<BudgetStatus>, i: nat)
    requires i < |statuses|
    ensures var s, (before, events) := statuses[i], Check(table, statuses[..i]);
            var (after, newly) := RecordAll(before, s, s.crossedWarnAt);
            Check(table, statuses[..i + 1]) == (after, events + EventFor(s, newly))
    ensures |Inserts(statuses[..i + 1])| == |Inserts(statuses[..i])| + |statuses[i].crossedWarnAt|
    ensures |Inserts(statuses[..i + 1])| <= |Inserts(statuses)|
  {
    assert statuses[..i + 1][..i] == statuses[..i];
    InsertsOfPrefix(statuses, i + 1);
  }

  lemma {:induction false} InsertsOfPrefix(statuses: seq<BudgetStatus>, i: nat)
    requires i <= |statuses|
    ensures Inserts(statuses[..i]) <= Inserts(statuses)
    decreases |statuses|
  {
    hide KeysOf;
    if i < |statuses| {
      var front := statuses[..|statuses| - 1];
      InsertsOfPrefix(front, i);
      assert front[..i] == statuses[..i];
    } else {
      assert statuses[..i] == statuses;
    }
  }

  /** A check given up at the status `i`, after `j` of that status's inserts. */
  lemma GivenUp(table: Table, statuses: seq<BudgetStatus>, i: nat, j: nat)
    requires i < |statuses| && j < |statuses[i].crossedWarnAt|
    ensures var done := |Inserts(statuses[..i])| + j;
            done < |Inserts(statuses)| &&
            Recorded(table, Inserts(statuses)[..done]) ==
            Recorded(Check(table, statuses[..i]).0, KeysOf(statuses[i], statuses[i].crossedWarnAt[..j]))
  {
    var s, before := statuses[i], Inserts(statuses[..i]);
    assert KeysOf(s, s.crossedWarnAt[..j]) == KeysOf(s, s.crossedWarnAt)[..j];
    assert Inserts(statuses[..i + 1]) == before + KeysOf(s, s.crossedWarnAt) by {
      assert statuses[..i + 1][..i] == statuses[..i];
    }
    hide *;
    InsertsOfPrefix(statuses, i + 1);
    CheckRecords(table, statuses[..i]);
    RecordedInside(table, Inserts(statuses), before, KeysOf(s, s.crossedWarnAt), j);
  }

  lemma RecordedInside(table: Table, whole: seq<WarningKey>, before: seq<WarningKey>, all: seq<WarningKey>, j: nat)
    requires before + all <= whole && j < |all|
    ensures |before| + j < |whole|
    ensures Recorded(table, whole[..|before| + j]) == Recorded(Recorded(table, before), all[..j])
  {
    assert whole[..|before| + j] == before + all[..j];
    RecordedNext(table, before, all[..j]);
    hide Recorded;
  }

  // ----- runs of checks -----

  /** A check that is finished, or is given up after that many of its inserts. */
  datatype Attempt = Finished(statuses: seq<BudgetStatus>) | GivenUpAfter(statuses: seq<BudgetStatus>, inserts: nat)

  function InsertsMade(a: Attempt): seq<WarningKey> {
    var all := Inserts(a.statuses);
    if a.GivenUpAfter? && a.inserts < |all| then all[..a.inserts] else all
  }

  function AttemptResult(table: Table, a: Attempt): (Table, seq<WarningEvent>) {
    match a
    case Finished(statuses) => Check(table, statuses)
    case GivenUpAfter(_, _) => (Recorded(table, InsertsMade(a)), [])
  }

  /** All events of a run of checks, starting from the given table. */
  function RunEvents(table: Table, attempts: seq<Attempt>): (Table, seq<WarningEvent>) {
    if attempts == [] then (table, [])
    else
      var (before, events) := RunEvents(table, attempts[..|attempts| - 1]);
      var (after, more) := AttemptResult(before, attempts[|attempts| - 1]);
      (after, events + more)
  }

  predicate CrossedIn(k: WarningKey, s: BudgetStatus, thresholds: seq<real>) {
    exists t :: t in thresholds && KeyOf(s, t) == k
  }

  predicate CrossedBy(k: WarningKey, statuses: seq<BudgetStatus>) {
    exists s :: s in statuses && CrossedIn(k, s, s.crossedWarnAt)
  }

  /** The key was crossed at some check whose insert of it was made. */
  predicate EverInserted(k: WarningKey, attempts: seq<Attempt>) {
    exists a :: a in attempts && k in InsertsMade(a)
  }

  function CountIn(threshold: int, listed: seq<real>): nat {
    if listed == [] then 0
    else CountIn(threshold, listed[..|listed| - 1]) + if ThresholdKey(listed[|listed| - 1]) == threshold then 1 else 0
  }

  /** How many times a threshold of a budget window is announced. */
  function CountAnnounced(k: WarningKey, events: seq<WarningEvent>): nat {
    if events == [] then 0
    else
      var e := events[|events| - 1];
      CountAnnounced(k, events[..|events| - 1])
        + if e.budget == k.budget && e.periodStart == k.periodStart then CountIn(k.threshold, e.crossedWarnAt) else 0
  }

  /** The key of the threshold 1.0, configured by default, that is also announced again while over the limit. */
  const FULL: int := 1000000

  predicate IsAbout(k: WarningKey, s: BudgetStatus) {
    s.name == k.budget && s.periodStart == k.periodStart
  }

  /** Everything the status reports as crossed is in the table already. */
  predicate AllOnRecord(table: Table, s: BudgetStatus) {
    forall t :: t in s.crossedWarnAt ==> KeyOf(s, t) in table
  }

  /** The status is announced as 1.0 although nothing is new: its budget is still over the limit. */
  predicate IsRepeat(k: WarningKey, table: Table, s: BudgetStatus) {
    k.threshold == FULL && IsAbout(k, s) && s.overLimit && AllOnRecord(table, s)
  }

  function RepeatsIn(k: WarningKey, table: Table, statuses: seq<BudgetStatus>): nat {
    if statuses == [] then 0
    else
      var front := statuses[..|statuses| - 1];
      RepeatsIn(k, table, front) + if IsRepeat(k, Check(table, front).0, statuses[|statuses| - 1]) then 1 else 0
  }

  /** The repeats over the finished checks of a run; none for a key other than 1.0. */
  function Repeats(k: WarningKey, table: Table, attempts: seq<Attempt>): (n: nat)
    ensures k.threshold != FULL ==> n == 0
  {
    if attempts == [] then 0
    else
      var front, a := attempts[..|attempts| - 1], attempts[|attempts| - 1];
      var before := RunEvents(table, front).0;
      NoRepeats(k, before, a.statuses);
      Repeats(k, table, front) + if a.Finished? then RepeatsIn(k, before, a.statuses) else 0
  }

  /** The check at `i` was given up, and it was the one that put the key on record. */
  predicate LostAt(k: WarningKey, table: Table, attempts: seq<Attempt>, i: nat)
    requires i < |attempts|
  {
    && attempts[i].GivenUpAfter?
    && k !in RunEvents(table, attempts[..i]).0 && k in RunEvents(table, attempts[..i + 1]).0
  }

  predicate Lost(k: WarningKey, table: Table, attempts: seq<Attempt>) {
    exists i :: 0 <= i < |attempts| && LostAt(k, table, attempts, i)
  }

  lemma {:induction false} NoRepeats(k: WarningKey, table: Table, statuses: seq<BudgetStatus>)
    ensures k.threshold != FULL ==> RepeatsIn(k, table, statuses) == 0
  {
    if statuses != [] { NoRepeats(k, table, statuses[..|statuses| - 1]); }
  }

  /** New in `after`: one announcement; otherwise none. */
  predicate Once(k: WarningKey, before: Table, after: Table, crossed: bool, announced: nat) {
    && (k in after <==> k in before || crossed)
    && announced == if k in after && k !in before then 1 else 0
  }

  lemma SnocCount(threshold: int, listed: seq<real>, t: real)
    ensures CountIn(threshold, listed + [t]) == CountIn(threshold, listed) +
            if ThresholdKey(t) == threshold then 1 else 0
  {
    assert (listed + [t])[..|listed|] == listed;
  }

  lemma {:induction false} RecordAllOnce(k: WarningKey, table: Table, s: BudgetStatus, thresholds: seq<real>)
    ensures var (after, newly) := RecordAll(table, s, thresholds);
            Once(k, table, after, CrossedIn(k, s, thresholds),
                 if IsAbout(k, s) then CountIn(k.threshold, newly) else 0)
  {
    if thresholds != [] {
      var front, t := thresholds[..|thresholds| - 1], thresholds[|thresholds| - 1];
      var (before, newly) := RecordAll(table, s, front);
      assert RecordAll(table, s, thresholds) ==
             if KeyOf(s, t) in before then (before, newly) else (before + {KeyOf(s, t)}, newly + [t]);
      assert KeyOf(s, t) == k <==> IsAbout(k, s) && ThresholdKey(t) == k.threshold;
      RecordAllOnce(k, table, s, front);
      SnocCount(k.threshold, newly, t);
      assert thresholds == front + [t];
      CrossedSnoc(k, s, front, t);
      hide RecordAll, CrossedIn, CountIn, KeyOf, ThresholdKey, IsAbout;
    }
  }

  lemma CrossedSnoc(k: WarningKey, s: BudgetStatus, front: seq<real>, t: real)
    ensures CrossedIn(k, s, front + [t]) <==> CrossedIn(k, s, front) || KeyOf(s, t) == k
  {
    hide KeyOf;
    var all := front + [t];
    if CrossedIn(k, s, front) {
      var x :| x in front && KeyOf(s, x) == k;
      assert x in all;
    }
    assert t in all;
  }

  lemma {:induction false} CountMore(k: WarningKey, events: seq<WarningEvent>, more: seq<WarningEvent>)
    ensures CountAnnounced(k, events + more) == CountAnnounced(k, events) + CountAnnounced(k, more)
  {
    if more == [] {
      assert events + more == events;
    } else {
      assert (events + more)[..|events + more| - 1] == events + more[..|more| - 1];
      CountMore(k, events, more[..|more| - 1]);
    }
  }

  lemma {:induction false} NothingNew(table: Table, s: BudgetStatus, thresholds: seq<real>)
    ensures var (after, newly) := RecordAll(table, s, thresholds);
            newly == [] ==> after == table
    ensures RecordAll(table, s, thresholds).1 == [] <==> forall t :: t in thresholds ==> KeyOf(s, t) in table
  {
    hide KeyOf;
    if thresholds != [] {
      var front, t := thresholds[..|thresholds| - 1], thresholds[|thresholds| - 1];
      NothingNew(table, s, front);
      assert thresholds == front + [t];
    }
  }

  /** One event announces what is new and, if that is nothing and the limit is passed, 1.0. */
  lemma CountEvent(k: WarningKey, s: BudgetStatus, newly: seq<real>)
    ensures CountAnnounced(k, EventFor(s, newly)) ==
            (if IsAbout(k, s) then CountIn(k.threshold, newly) else 0) +
            (if IsAbout(k, s) && newly == [] && s.overLimit && k.threshold == FULL then 1 else 0)
  {
    assert ThresholdKey(1.0) == FULL;
    assert [1.0][..0] == [];
    assert CountIn(k.threshold, [1.0]) == if k.threshold == FULL then 1 else 0;
    var listed := if newly == [] && s.overLimit then [1.0] else newly;
    assert [WarningEvent(s.name, s.periodStart, listed)][..0] == [];
  }

  /** One check announces a threshold once if it is crossed and was not on record, besides repeats. */
  lemma {:induction false} CheckOnce(k: WarningKey, table: Table, statuses: seq<BudgetStatus>)
    ensures var (after, events) := Check(table, statuses);
            var n := CountAnnounced(k, events);
            var repeats := RepeatsIn(k, table, statuses);
            repeats <= n && Once(k, table, after, CrossedBy(k, statuses), n - repeats)
  {
    hide CountIn, CrossedIn, EventFor, RecordAll, KeyOf;
    if statuses != [] {
      var front, s := statuses[..|statuses| - 1], statuses[|statuses| - 1];
      var (before, events) := Check(table, front);
      var (after, newly) := RecordAll(before, s, s.crossedWarnAt);
      CheckOnce(k, table, front);
      RecordAllOnce(k, before, s, s.crossedWarnAt);
      NothingNew(before, s, s.crossedWarnAt);
      CountEvent(k, s, newly);
      CountMore(k, events, EventFor(s, newly));
      CrossedByLast(k, statuses);
    }
  }

  lemma CrossedByLast(k: WarningKey, statuses: seq<BudgetStatus>)
    requires statuses != []
    ensures var front, s := statuses[..|statuses| - 1], statuses[|statuses| - 1];
            CrossedBy(k, statuses) <==> CrossedBy(k, front) || CrossedIn(k, s, s.crossedWarnAt)
  {
    hide CrossedIn;
    var front, s := statuses[..|statuses| - 1], statuses[|statuses| - 1];
    assert statuses == front + [s];
    if CrossedBy(k, front) {
      var x :| x in front && CrossedIn(k, x, x.crossedWarnAt);
      assert x in statuses;
    }
    assert s in statuses;
  }

  lemma {:induction false} CrossedIsInserted(k: WarningKey, statuses: seq<BudgetStatus>)
    ensures CrossedBy(k, statuses) <==> k in Inserts(statuses)
  {
    hide KeyOf;
    if statuses != [] {
      var s := statuses[|statuses| - 1];
      CrossedIsInserted(k, statuses[..|statuses| - 1]);
      CrossedByLast(k, statuses);
      assert CrossedIn(k, s, s.crossedWarnAt) <==> k in KeysOf(s, s.crossedWarnAt) by {
        if CrossedIn(k, s, s.crossedWarnAt) {
          var t :| t in s.crossedWarnAt && KeyOf(s, t) == k;
          var i :| 0 <= i < |s.crossedWarnAt| && s.crossedWarnAt[i] == t;
          assert KeysOf(s, s.crossedWarnAt)[i] == k;
        }
      }
      hide KeysOf, CrossedIn, CrossedBy;
    }
  }

  lemma EverInsertedLast(k: WarningKey, attempts: seq<Attempt>)
    requires attempts != []
    ensures var front, a := attempts[..|attempts| - 1], attempts[|attempts| - 1];
            EverInserted(k, attempts) <==> EverInserted(k, front) || k in InsertsMade(a)
  {
    hide InsertsMade;
    var front, a := attempts[..|attempts| - 1], attempts[|attempts| - 1];
    assert attempts == front + [a];
    assert a in attempts;
    if EverInserted(k, front) {
      var x :| x in front && k in InsertsMade(x);
      assert x in attempts;
    }
  }

  lemma LostLast(k: WarningKey, table: Table, attempts: seq<Attempt>)
    requires attempts != []
    ensures var front, n := attempts[..|attempts| - 1], |attempts| - 1;
            Lost(k, table, attempts) <==> Lost(k, table, front) || LostAt(k, table, attempts, n)
  {
    hide RunEvents;
    var front, n := attempts[..|attempts| - 1], |attempts| - 1;
    if Lost(k, table, front) {
      var i :| 0 <= i < n && LostAt(k, table, front, i);
      assert front[..i] == attempts[..i] && front[..i + 1] == attempts[..i + 1];
      assert LostAt(k, table, attempts, i);
    }
    if Lost(k, table, attempts) {
      var i :| 0 <= i < |attempts| && LostAt(k, table, attempts, i);
      if i < n {
        assert front[..i] == attempts[..i] && front[..i + 1] == attempts[..i + 1];
        assert LostAt(k, table, front, i);
      }
    }
  }

  /** One attempt records what it inserts, and announces it once besides repeats if it is finished. */
  lemma AttemptOnce(k: WarningKey, table: Table, a: Attempt)
    ensures var (after, events) := AttemptResult(table, a);
            var repeats := if a.Finished? then RepeatsIn(k, table, a.statuses) else 0;
            var n := CountAnnounced(k, events);
            && (k in after <==> k in table || k in InsertsMade(a))
            && n == repeats + if a.Finished? && k in after && k !in table then 1 else 0
  {
    CheckOnce(k, table, a.statuses);
    CrossedIsInserted(k, a.statuses);
    hide Check, RepeatsIn, CrossedBy, Inserts;
  }

  /** How a threshold stands after a run: recorded, announced, or lost. */
  predicate AnnouncedUnlessLost(k: WarningKey, table: Table, attempts: seq<Attempt>) {
    var (after, events) := RunEvents(table, attempts);
    && (k in after <==> k in table || EverInserted(k, attempts))
    && (Lost(k, table, attempts) ==> k in after && k !in table)
    && CountAnnounced(k, events) == Repeats(k, table, attempts) +
         if k in after && k !in table && !Lost(k, table, attempts) then 1 else 0
  }

  /**
   * Over every run of checks, finished or given up at any insert, a threshold of a budget
   * window, 1.0 included, is announced exactly once if it became recorded and not by a check
   * that was given up, and never otherwise. It became recorded if it was crossed at some
   * check that got as far as its insert. Besides, 1.0 is announced again at every finished
   * check over the limit that has nothing new to report.
   */
  lemma {:induction false} AnnouncedExactlyOnce(k: WarningKey, table: Table, attempts: seq<Attempt>)
    ensures AnnouncedUnlessLost(k, table, attempts)
  {
    if attempts != [] {
      var n := |attempts| - 1;
      var front, a := attempts[..n], attempts[n];
      var (before, events) := RunEvents(table, front);
      var (after, more) := AttemptResult(before, a);
      AnnouncedExactlyOnce(k, table, front);
      AttemptOnce(k, before, a);
      CountMore(k, events, more);
      EverInsertedLast(k, attempts);
      LostLast(k, table, attempts);
      assert attempts[..n + 1] == attempts;
      hide AttemptResult, RepeatsIn, EverInserted, Lost, CountAnnounced, InsertsMade;
    }
  }

  /**
   * The shortest such run: 0.8 and 1.0 are crossed, the insert of 1.0 fails, and the check is
   * made again. Then 0.8 is on record and was never announced.
   */
  lemma FailureLosesWarning(s: BudgetStatus)
    requires s.crossedWarnAt == [0.8, 1.0]
    ensures var (after, events) := RunEvents({}, [GivenUpAfter([s], 1), Finished([s])]);
            KeyOf(s, 0.8) in after && CountAnnounced(KeyOf(s, 0.8), events) == 0
  {
    var k, attempts := KeyOf(s, 0.8), [GivenUpAfter([s], 1), Finished([s])];
    assert k.threshold != FULL;
    assert attempts[..0] == [] && attempts[..1] == [GivenUpAfter([s], 1)];
    assert RunEvents({}, []).0 == {};
    GivenUpRecordsFirst(s);
    hide RunEvents, KeyOf;
    assert LostAt(k, {}, attempts, 0);
    AnnouncedExactlyOnce(k, {}, attempts);
  }

  lemma GivenUpRecordsFirst(s: BudgetStatus)
    requires s.crossedWarnAt != [] && |s.crossedWarnAt| > 1
    ensures RunEvents({}, [GivenUpAfter([s], 1)]).0 == {KeyOf(s, s.crossedWarnAt[0])}
  {
    var a := GivenUpAfter([s], 1);
    assert [a][..0] == [] && [s][..0] == [];
    assert RunEvents({}, [a]).0 == Recorded({}, InsertsMade(a));
    assert Inserts([s]) == KeysOf(s, s.crossedWarnAt);
    assert InsertsMade(a) == [KeyOf(s, s.crossedWarnAt[0])];
    hide RunEvents, KeyOf, Inserts;
  }

  lemma {:induction false} NewlyAscends(table: Table, s: BudgetStatus, thresholds: seq<real>)
    requires Ascends(thresholds)
    ensures var newly := RecordAll(table, s, thresholds).1;
            Ascends(newly) && (newly != [] ==> thresholds != [] && newly[|newly| - 1] <= thresholds[|thresholds| - 1])
  {
    if thresholds != [] {
      var front := thresholds[..|thresholds| - 1];
      NewlyAscends(table, s, front);
      assert front != [] ==> front[|front| - 1] == thresholds[|thresholds| - 2];
    }
  }

  /** The event is about the budget and window of the status, and keeps the order of its thresholds. */
  predicate Reports(e: WarningEvent, s: BudgetStatus) {
    && e.budget == s.name && e.periodStart == s.periodStart
    && (Ascends(s.crossedWarnAt) ==> Ascends(e.crossedWarnAt))
  }

  /**
   * A check goes through the statuses in order and adds at most one event for each, about that
   * budget and window, whose thresholds ascend if those of the status do.
   */
  lemma EventsInOrder(table: Table, statuses: seq<BudgetStatus>, i: nat)
    requires i < |statuses|
    ensures var before, after := Check(table, statuses[..i]).1, Check(table, statuses[..i + 1]).1;
            before == after || (|after| == |before| + 1 && before <= after && Reports(after[|before|], statuses[i]))
  {
    var s := statuses[i];
    var (before, events) := Check(table, statuses[..i]);
    var newly := RecordAll(before, s, s.crossedWarnAt).1;
    OneMoreStatus(table, statuses, i);
    if Ascends(s.crossedWarnAt) { NewlyAscends(before, s, s.crossedWarnAt); }
    hide Check, RecordAll, Inserts;
    assert events + [] == events;
    if EventFor(s, newly) != [] { assert EventFor(s, newly) == [EventFor(s, newly)[0]]; }
  }

  /** So is every check made once the limit is spent. */
  lemma OverspentIsAnnounced(table: Table, statuses: seq<BudgetStatus>, name: string, periodStart: int,
                             warnAt: seq<real>, cost: real, limit: real)
    requires limit > 0.0 && cost >= limit && StatusOf(name, periodStart, warnAt, cost, limit) in statuses
    ensures exists e :: e in Check(table, statuses).1 && e.budget == name && e.periodStart == periodStart
  {
    OverLimitAlwaysAnnounced(table, statuses, StatusOf(name, periodStart, warnAt, cost, limit));
    hide Check;
  }

  /** Below the limit a check announces nothing that is on record. */
  lemma {:induction false} QuietBelowLimit(table: Table, statuses: seq<BudgetStatus>)
    requires forall s :: s in statuses ==> !s.overLimit && AllOnRecord(table, s)
    ensures Check(table, statuses) == (table, [])
  {
    if statuses != [] {
      var front, s := statuses[..|statuses| - 1], statuses[|statuses| - 1];
      QuietBelowLimit(table, front);
      assert s in statuses && AllOnRecord(table, s);
      NothingNew(table, s, s.crossedWarnAt);
      assert RecordAll(table, s, s.crossedWarnAt) == (table, []);
      var none: seq<WarningEvent> := [];
      assert none + EventFor(s, []) == none;
      assert Check(table, statuses) == (table, none + EventFor(s, []));
    }
  }

  /** Every check made while over the limit announces the budget, whatever was announced before. */
  lemma {:induction false} OverLimitAlwaysAnnounced(table: Table, statuses: seq<BudgetStatus>, s: BudgetStatus)
    requires s in statuses && s.overLimit
    ensures exists e :: e in Check(table, statuses).1 && e.budget == s.name && e.periodStart == s.periodStart
  {
    var front, last := statuses[..|statuses| - 1], statuses[|statuses| - 1];
    var (before, events) := Check(table, front);
    var (after, newly) := RecordAll(before, last, last.crossedWarnAt);
    assert Check(table, statuses).1 == events + EventFor(last, newly);
    if s == last {
      assert EventFor(s, newly)[0] in EventFor(s, newly);
    } else {
      assert s in front;
      OverLimitAlwaysAnnounced(table, front, s);
    }
  }
}
