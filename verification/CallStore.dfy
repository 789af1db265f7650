/**
 * Rotation of the store of recorded calls: rows past their age go first, then the oldest of
 * the rest until what is stored fits. The deletion by size is one statement over running
 * totals; here it is shown to do what evicting row by row would.
 */
module CallStore {
  import opened Common

  /** A stored call: its id, its time in seconds, and the sizes of its compressed payloads. */
  datatype Row = Row(id: nat, ts: int, request: Option<nat>, response: Option<nat>)

  datatype Transcript = Transcript(id: nat, ts: int)

  datatype RotateStats = RotateStats(deletedByAge: nat, deletedBySize: nat)

  function Size(r: Row): nat {
    r.request.GetOr(0) + r.response.GetOr(0)
  }

  predicate Newer(a: Row, b: Row) {
    a.ts > b.ts || (a.ts == b.ts && a.id > b.id)
  }

  ghost predicate UniqueIds(rows: seq<Row>) {
    forall i, j :: 0 <= i < j < |rows| ==> rows[i].id != rows[j].id
  }

  // ----- tables -----

  function Keep<T(!new)>(s: seq<T>, keep: T -> bool): (k: seq<T>)
    ensures |k| <= |s|
  {
    if s == [] then [] else Keep(s[..|s| - 1], keep) + if keep(s[|s| - 1]) then [s[|s| - 1]] else []
  }

  function Total(rows: seq<Row>): nat {
    if rows == [] then 0 else Total(rows[..|rows| - 1]) + Size(rows[|rows| - 1])
  }

  /** What a row adds to the running total of `r`, in newest-first order. */
  function Weight(x: Row, r: Row): nat {
    if x == r || Newer(x, r) then Size(x) else 0
  }

  /** The window sum at `r`: the sizes of `r` and of all newer rows. */
  function Running(rows: seq<Row>, r: Row): nat {
    if rows == [] then 0 else Running(rows[..|rows| - 1], r) + Weight(rows[|rows| - 1], r)
  }

  predicate IsNewest(rows: seq<Row>, r: Row) {
    forall x :: x in rows ==> x == r || Newer(r, x)
  }

  /** A row stays if its running total fits, or if it is the newest. */
  predicate Stays(rows: seq<Row>, cap: nat, r: Row) {
    Running(rows, r) <= cap || IsNewest(rows, r)
  }

  function KeepSized(rows: seq<Row>, cap: nat): seq<Row> {
    Keep(rows, r => Stays(rows, cap, r))
  }

  function KeepYoung(rows: seq<Row>, cutoff: int): (k: seq<Row>)
    requires UniqueIds(rows)
    ensures UniqueIds(k)
  {
    KeepIsUnique(rows, (r: Row) => r.ts >= cutoff);
    Keep(rows, (r: Row) => r.ts >= cutoff)
  }

  function RemoveAt(rows: seq<Row>, k: nat): (r: seq<Row>)
    requires k < |rows|
    ensures |r| == |rows| - 1
  {
    rows[..k] + rows[k + 1..]
  }

  function OldestIndex(rows: seq<Row>): (k: nat)
    requires rows != [] && UniqueIds(rows)
    ensures k < |rows|
    ensures forall i :: 0 <= i < |rows| && i != k ==> Newer(rows[i], rows[k])
  {
    var n := |rows| - 1;
    if n == 0 then 0
    else
      var k := OldestIndex(rows[..n]);
      assert forall i :: 0 <= i < n ==> rows[..n][i] == rows[i];
      if Newer(rows[k], rows[n]) then n else k
  }

  /** Eviction as documented: the oldest row goes until the rest fits or one row is left. */
  function EvictUntilFits(rows: seq<Row>, cap: nat): (k: seq<Row>)
    requires UniqueIds(rows)
    ensures UniqueIds(k) && (Total(k) <= cap || |k| == 1)
    ensures forall r :: r in k ==> r in rows
    ensures rows != [] ==> k != []
    decreases |rows|
  {
    if |rows| <= 1 || Total(rows) <= cap then rows
    else EvictUntilFits(RemoveAt(rows, OldestIndex(rows)), cap)
  }

  // ----- facts about tables -----

  lemma {:induction false} KeepHolds<T(!new)>(s: seq<T>, keep: T -> bool)
    ensures forall x :: x in Keep(s, keep) <==> x in s && keep(x)
  {
    if s != [] {
      var front, last := s[..|s| - 1], s[|s| - 1];
      KeepHolds(front, keep);
      assert forall x :: x in s <==> x in front || x == last;
    }
  }

  lemma {:induction false} KeepIsUnique(rows: seq<Row>, keep: Row -> bool)
    requires UniqueIds(rows)
    ensures UniqueIds(Keep(rows, keep))
  {
    if rows != [] {
      var front, last := rows[..|rows| - 1], rows[|rows| - 1];
      KeepIsUnique(front, keep);
      KeepHolds(front, keep);
      var k := Keep(front, keep);
      forall i | 0 <= i < |k|
        ensures k[i].id != last.id
      {
        assert k[i] in front;
      }
    }
  }

  lemma {:induction false} KeepConcat<T(!new)>(a: seq<T>, b: seq<T>, keep: T -> bool)
    ensures Keep(a + b, keep) == Keep(a, keep) + Keep(b, keep)
  {
    if b == [] {
      assert a + b == a;
    } else {
      assert (a + b)[..|a + b| - 1] == a + b[..|b| - 1];
      KeepConcat(a, b[..|b| - 1], keep);
    }
  }

  lemma {:induction false} KeepAgrees<T(!new)>(s: seq<T>, f: T -> bool, g: T -> bool)
    requires forall x :: x in s ==> f(x) == g(x)
    ensures Keep(s, f) == Keep(s, g)
  {
    if s != [] {
      assert s[|s| - 1] in s;
      KeepAgrees(s[..|s| - 1], f, g);
    }
  }

  lemma {:induction false} KeepAll<T(!new)>(s: seq<T>, keep: T -> bool)
    requires forall x :: x in s ==> keep(x)
    ensures Keep(s, keep) == s
  {
    if s != [] {
      assert s[|s| - 1] in s;
      KeepAll(s[..|s| - 1], keep);
    }
  }

  lemma {:induction false} KeepSkips(a: seq<Row>, x: Row, b: seq<Row>, keep: Row -> bool)
    requires !keep(x)
    ensures Keep(a + [x] + b, keep) == Keep(a + b, keep)
  {
    if b == [] {
      assert (a + [x] + b)[..|a|] == a == a + b;
      assert Keep(a + [x] + b, keep) == Keep(a, keep) + [];
    } else {
      var front := b[..|b| - 1];
      KeepSkips(a, x, front, keep);
      assert (a + [x] + b)[..|a| + |b|] == a + [x] + front;
      assert (a + b)[..|a| + |b| - 1] == a + front;
    }
  }

  lemma AroundIndex(rows: seq<Row>, k: nat)
    requires k < |rows|
    ensures rows == rows[..k] + [rows[k]] + rows[k + 1..]
  {
  }

  lemma KeepWithout(rows: seq<Row>, k: nat, keep: Row -> bool)
    requires k < |rows| && !keep(rows[k])
    ensures Keep(rows, keep) == Keep(RemoveAt(rows, k), keep)
  {
    hide Keep;
    var a, x, b := rows[..k], rows[k], rows[k + 1..];
    AroundIndex(rows, k);
    KeepSkips(a, x, b, keep);
  }

  lemma {:induction false} RunningConcat(a: seq<Row>, b: seq<Row>, r: Row)
    ensures Running(a + b, r) == Running(a, r) + Running(b, r)
  {
    hide Weight;
    if b == [] {
      assert a + b == a;
    } else {
      assert (a + b)[..|a + b| - 1] == a + b[..|b| - 1];
      RunningConcat(a, b[..|b| - 1], r);
    }
  }

  lemma RunningWithout(rows: seq<Row>, k: nat, r: Row)
    requires k < |rows|
    ensures Running(RemoveAt(rows, k), r) + Weight(rows[k], r) == Running(rows, r)
  {
    hide Weight;
    assert rows == rows[..k] + ([rows[k]] + rows[k + 1..]);
    RunningConcat(rows[..k], [rows[k]] + rows[k + 1..], r);
    RunningConcat([rows[k]], rows[k + 1..], r);
    RunningConcat(rows[..k], rows[k + 1..], r);
    assert Running([rows[k]], r) == Running([], r) + Weight(rows[k], r);
  }

  lemma {:induction false} RunningWithin(rows: seq<Row>, r: Row)
    ensures Running(rows, r) <= Total(rows)
    ensures (forall x :: x in rows ==> x == r || Newer(x, r)) ==> Running(rows, r) == Total(rows)
  {
    if rows != [] {
      assert rows[|rows| - 1] in rows;
      RunningWithin(rows[..|rows| - 1], r);
    }
  }

  // ----- the two deletions agree -----

  /** Without its oldest row, a table of two or more rows judges the other rows as before. */
  lemma StaysWithoutOldest(rows: seq<Row>, cap: nat, k: nat, r: Row)
    requires k < |rows| && r in RemoveAt(rows, k)
    requires forall i :: 0 <= i < |rows| && i != k ==> Newer(rows[i], rows[k])
    ensures Stays(RemoveAt(rows, k), cap, r) == Stays(rows, cap, r)
  {
    var rest := RemoveAt(rows, k);
    RunningWithout(rows, k, r);
    assert Newer(r, rows[k]) by {
      var j :| 0 <= j < |rest| && rest[j] == r;
    }
    assert Weight(rows[k], r) == 0;
    hide Running, Weight, Newer;
    forall x
      ensures x in rows <==> x in rest || x == rows[k]
    {
      if x in rows && x != rows[k] {
        var i :| 0 <= i < |rows| && rows[i] == x;
        assert rest[if i < k then i else i - 1] == x;
      }
    }
  }

  /** The oldest of a table that does not fit goes, unless it is alone. */
  lemma OldestGoes(rows: seq<Row>, cap: nat, k: nat)
    requires 2 <= |rows| && k < |rows| && Total(rows) > cap
    requires forall i :: 0 <= i < |rows| && i != k ==> Newer(rows[i], rows[k])
    ensures !Stays(rows, cap, rows[k])
  {
    RunningWithin(rows, rows[k]);
    var other := if k == 0 then 1 else 0;
    assert Newer(rows[other], rows[k]);
    assert rows[other] in rows;
  }

  lemma SizedWithoutOldest(rows: seq<Row>, cap: nat, k: nat)
    requires k < |rows| && !Stays(rows, cap, rows[k])
    requires forall i :: 0 <= i < |rows| && i != k ==> Newer(rows[i], rows[k])
    ensures KeepSized(rows, cap) == KeepSized(RemoveAt(rows, k), cap)
  {
    var rest, stays := RemoveAt(rows, k), r => Stays(rows, cap, r);
    hide Stays, Newer;
    forall r | r in rest
      ensures Stays(rest, cap, r) == Stays(rows, cap, r)
    {
      StaysWithoutOldest(rows, cap, k, r);
    }
    KeepAgrees(rest, r => Stays(rest, cap, r), stays);
    KeepWithout(rows, k, stays);
  }

  lemma FittingStays(rows: seq<Row>, cap: nat)
    requires |rows| <= 1 || Total(rows) <= cap
    ensures KeepSized(rows, cap) == rows
  {
    forall r | r in rows
      ensures Stays(rows, cap, r)
    {
      RunningWithin(rows, r);
    }
    KeepAll(rows, r => Stays(rows, cap, r));
  }

  /** The deletion by running totals leaves the rows that evicting one by one leaves. */
  lemma {:induction false} SizedIsEviction(rows: seq<Row>, cap: nat)
    requires UniqueIds(rows)
    ensures KeepSized(rows, cap) == EvictUntilFits(rows, cap)
    decreases |rows|
  {
    if |rows| <= 1 || Total(rows) <= cap {
      FittingStays(rows, cap);
    } else {
      var k := OldestIndex(rows);
      var rest := RemoveAt(rows, k);
      SizedIsEviction(rest, cap);
      OldestGoes(rows, cap, k);
      SizedWithoutOldest(rows, cap, k);
    }
  }

  // ----- what rotation leaves -----

  /** A set of rows that holds, with each row, all newer rows of the table. */
  ghost predicate NewestFirst(rows: seq<Row>, part: Row -> bool) {
    forall x, y :: x in rows && y in rows && part(x) && Newer(y, x) ==> part(y)
  }

  lemma {:induction false} RunningOfPart(rows: seq<Row>, part: Row -> bool, r: Row)
    requires forall x :: x in rows && (x == r || Newer(x, r)) ==> part(x)
    ensures Running(rows, r) <= Total(Keep(rows, part))
  {
    hide Newer;
    if rows != [] {
      var front, last := rows[..|rows| - 1], rows[|rows| - 1];
      assert last in rows;
      RunningOfPart(front, part, r);
      var k := Keep(front, part);
      assert (k + [last])[..|k|] == k && (k + []) == k;
    }
  }

  lemma {:induction false} RunningGrows(rows: seq<Row>, x: Row, y: Row)
    requires Newer(y, x)
    ensures Running(rows, y) <= Running(rows, x)
  {
    if rows != [] {
      RunningGrows(rows[..|rows| - 1], x, y);
    }
  }

  /**
   * The rows that stay are a newest-first part of the table that fits or is one row, and hold
   * every newest-first part that fits.
   */
  lemma KeptIsLongestFit(rows: seq<Row>, cap: nat, part: Row -> bool)
    requires UniqueIds(rows)
    ensures NewestFirst(rows, r => Stays(rows, cap, r))
    ensures Total(KeepSized(rows, cap)) <= cap || |KeepSized(rows, cap)| == 1
    ensures NewestFirst(rows, part) && Total(Keep(rows, part)) <= cap ==>
              forall r :: r in rows && part(r) ==> r in KeepSized(rows, cap)
  {
    SizedIsEviction(rows, cap);
    forall x, y | x in rows && y in rows && Stays(rows, cap, x) && Newer(y, x)
      ensures Stays(rows, cap, y)
    {
      RunningGrows(rows, x, y);
    }
    if NewestFirst(rows, part) && Total(Keep(rows, part)) <= cap {
      hide Newer, Running, Total, IsNewest;
      KeepHolds(rows, r => Stays(rows, cap, r));
      forall r | r in rows && part(r)
        ensures r in KeepSized(rows, cap)
      {
        RunningOfPart(rows, part, r);
      }
    }
  }

  /** Rotating the result again, with the same cutoff and cap, deletes nothing. */
  lemma RotatedStays(rows: seq<Row>, cutoff: int, cap: nat)
    requires UniqueIds(rows)
    ensures var once := EvictUntilFits(KeepYoung(rows, cutoff), cap);
            KeepYoung(once, cutoff) == once && EvictUntilFits(once, cap) == once
  {
    KeepHolds(rows, (r: Row) => r.ts >= cutoff);
    KeepAll(EvictUntilFits(KeepYoung(rows, cutoff), cap), (r: Row) => r.ts >= cutoff);
  }

  /** The newest row that is young enough is never deleted. */
  lemma NewestStays(rows: seq<Row>, cutoff: int, cap: nat, r: Row)
    requires UniqueIds(rows) && r in rows && r.ts >= cutoff && IsNewest(rows, r)
    ensures r in EvictUntilFits(KeepYoung(rows, cutoff), cap)
  {
    var young := KeepYoung(rows, cutoff);
    KeepHolds(rows, (r: Row) => r.ts >= cutoff);
    SizedIsEviction(young, cap);
    KeepHolds(young, r => Stays(young, cap, r));
  }

  function RequestBytes(rows: seq<Row>): nat {
    if rows == [] then 0 else RequestBytes(rows[..|rows| - 1]) + rows[|rows| - 1].request.GetOr(0)
  }

  function ResponseBytes(rows: seq<Row>): nat {
    if rows == [] then 0 else ResponseBytes(rows[..|rows| - 1]) + rows[|rows| - 1].response.GetOr(0)
  }

  /** What is stored of a call is its request and its response. */
  lemma {:induction false} TotalIsBytes(rows: seq<Row>)
    ensures Total(rows) == RequestBytes(rows) + ResponseBytes(rows)
  {
    if rows != [] { TotalIsBytes(rows[..|rows| - 1]); }
  }

  function CountOldCalls(rows: seq<Row>, cutoff: int): nat {
    if rows == [] then 0
    else CountOldCalls(rows[..|rows| - 1], cutoff) + if rows[|rows| - 1].ts < cutoff then 1 else 0
  }

  function CountOldTranscripts(ts: seq<Transcript>, cutoff: int): nat {
    if ts == [] then 0
    else CountOldTranscripts(ts[..|ts| - 1], cutoff) + if ts[|ts| - 1].ts < cutoff then 1 else 0
  }

  /** Deleted by age are exactly the calls before the cutoff. */
  lemma {:induction false} YoungAndOld(rows: seq<Row>, cutoff: int)
    requires UniqueIds(rows)
    ensures |KeepYoung(rows, cutoff)| + CountOldCalls(rows, cutoff) == |rows|
  {
    if rows != [] { YoungAndOld(rows[..|rows| - 1], cutoff); }
  }

  lemma {:induction false} TranscriptsKept(ts: seq<Transcript>, cutoff: int)
    ensures |Keep(ts, (t: Transcript) => t.ts >= cutoff)| + CountOldTranscripts(ts, cutoff) == |ts|
  {
    if ts != [] { TranscriptsKept(ts[..|ts| - 1], cutoff); }
  }

  /** The call at `x` is older than the one at `y`: by its time, and then by its id. */
  predicate Older(x: Row, y: Row) {
    x.ts < y.ts || (x.ts == y.ts && x.id < y.id)
  }

  /**
   * What rotation leaves of the calls: none before the cutoff; of those at or after it all, in
   * order, if their payloads fit; and otherwise every one deleted is older than every one left.
   */
  predicate LeftBy(rows: seq<Row>, cutoff: int, cap: nat, left: seq<Row>) {
    var young := Keep(rows, (r: Row) => r.ts >= cutoff);
    && (forall r :: r in left ==> r in rows && r.ts >= cutoff)
    && (RequestBytes(young) + ResponseBytes(young) <= cap ==> left == young)
    && (RequestBytes(left) + ResponseBytes(left) <= cap || |left| == 1)
    && (forall x, y :: x in rows && x.ts >= cutoff && x !in left && y in left ==> Older(x, y))
    && (young != [] ==> left != [])
  }

  lemma {:induction false} EvictedAreOlder(rows: seq<Row>, cap: nat, x: Row, y: Row)
    requires UniqueIds(rows)
    requires x in rows && x !in EvictUntilFits(rows, cap) && y in EvictUntilFits(rows, cap)
    ensures Older(x, y)
    decreases |rows|
  {
    if |rows| > 1 && Total(rows) > cap {
      var k := OldestIndex(rows);
      RestHas(rows, k, x);
      hide Total, OldestIndex, RemoveAt, Newer, UniqueIds;
      if x == rows[k] {
        OldestIsOlder(rows, k, y);
      } else {
        EvictedAreOlder(RemoveAt(rows, k), cap, x, y);
      }
    }
  }

  lemma RestHas(rows: seq<Row>, k: nat, x: Row)
    requires k < |rows| && x in rows
    ensures x == rows[k] || x in RemoveAt(rows, k)
  {
    var i :| 0 <= i < |rows| && rows[i] == x;
    assert i < k ==> RemoveAt(rows, k)[i] == x;
    assert i > k ==> RemoveAt(rows, k)[i - 1] == x;
  }

  lemma OldestIsOlder(rows: seq<Row>, k: nat, y: Row)
    requires k < |rows| && y in RemoveAt(rows, k)
    requires forall i :: 0 <= i < |rows| && i != k ==> Newer(rows[i], rows[k])
    ensures Older(rows[k], y)
  {
    var rest := RemoveAt(rows, k);
    var j :| 0 <= j < |rest| && rest[j] == y;
    assert Newer(rows[if j < k then j else j + 1], rows[k]);
  }

  lemma RotationLeaves(rows: seq<Row>, cutoff: int, cap: nat)
    requires UniqueIds(rows)
    ensures LeftBy(rows, cutoff, cap, EvictUntilFits(KeepYoung(rows, cutoff), cap))
  {
    var young, left := KeepYoung(rows, cutoff), EvictUntilFits(KeepYoung(rows, cutoff), cap);
    KeepHolds(rows, (r: Row) => r.ts >= cutoff);
    TotalIsBytes(young);
    TotalIsBytes(left);
    forall x, y | x in young && x !in left && y in left
      ensures Older(x, y)
    {
      EvictedAreOlder(young, cap, x, y);
    }
    hide Older, Total, RequestBytes, ResponseBytes, UniqueIds, Keep;
  }

  class CallStore {
    var calls: seq<Row>
    var transcripts: seq<Transcript>

    ghost predicate Valid()
      reads this
    {
      UniqueIds(calls)
    }

    constructor ()
      ensures Valid() && calls == [] && transcripts == []
    {
      calls, transcripts := [], [];
    }

    method Rotate(cutoff: int, maxTotalBytes: nat) returns (stats: RotateStats)
      requires Valid()
      modifies this
      ensures Valid()
      ensures calls == EvictUntilFits(KeepYoung(old(calls), cutoff), maxTotalBytes)
      ensures transcripts == Keep(old(transcripts), (t: Transcript) => t.ts >= cutoff)
      ensures |old(calls)| + |old(transcripts)| == |calls| + |transcripts| + stats.deletedByAge + stats.deletedBySize
      ensures stats.deletedBySize == |KeepYoung(old(calls), cutoff)| - |calls|
      ensures LeftBy(old(calls), cutoff, maxTotalBytes, calls)
      ensures stats.deletedByAge == CountOldCalls(old(calls), cutoff) + CountOldTranscripts(old(transcripts), cutoff)
    {
      RotationLeaves(calls, cutoff, maxTotalBytes);
      YoungAndOld(calls, cutoff);
      TranscriptsKept(transcripts, cutoff);
      hide KeepYoung, LeftBy, CountOldCalls, CountOldTranscripts, EvictUntilFits;
      var young := KeepYoung(calls, cutoff);
      var agedCalls := |calls| - |young|;
      calls := young;
      var kept := Keep(transcripts, (t: Transcript) => t.ts >= cutoff);
      var agedTranscripts := |transcripts| - |kept|;
      transcripts := kept;
      var sized := KeepSized(calls, maxTotalBytes);
      SizedIsEviction(calls, maxTotalBytes);
      var overflow := |calls| - |sized|;
      calls := sized;
      stats := RotateStats(agedCalls + agedTranscripts, overflow);
    }
  }
}
