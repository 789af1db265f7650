/**
 * The supervisor of the LLM sidecar process: it starts the child again after each failure,
 * waits longer each time, and gives up after five failures in a row. The bridge to Matrix is
 * supervised by the same loop without the socket and health checks.
 */
module Supervisor {
  import opened Common

  const MAX_CONSECUTIVE_FAILURES := 5
  const STABLE_RUNTIME_THRESHOLD := 300

  /** How one round of the loop ends; run times are in seconds. */
  datatype Event =
    | SocketDirFailed
    | SpawnFailed
    | Unhealthy
    | ExitedBeforeHealthy(runtime: nat)
    | Exited(runtime: nat)
    | ShutdownSeen

  /** A round, and whether shutdown is asked for during the wait after it. */
  datatype Round = Round(event: Event, shutdown: bool)

  datatype End = GaveUp | ShutDown | StillRunning

  /** The wait in seconds after the given number of failures in a row. */
  function Backoff(failures: nat): nat {
    var shift := if failures == 0 then 0 else failures - 1;
    Pow2(Min(shift, 5))
  }

  /** All waits of a streak of failures. */
  function Waits(failures: nat): nat {
    if failures == 0 then 0 else Waits(failures - 1) + Backoff(failures)
  }

  lemma WaitsOfFour(failures: nat)
    requires failures <= 4
    ensures Waits(failures) <= 15 && Waits(1) == 1
  {
    assert Backoff(1) == 1 && Backoff(2) == 2 && Backoff(3) == 4 && Backoff(4) == 8;
    if failures > 2 { assert Waits(2) == 3; }
  }

  /** The first wait is a second, each further failure doubles it up to 32 seconds, and none shortens it. */
  lemma BackoffDoubles(failures: nat, more: nat)
    requires failures <= more
    ensures failures <= 1 ==> Backoff(failures) == 1
    ensures failures >= 1 ==> Backoff(failures + 1) == Min(2 * Backoff(failures), 32)
    ensures Backoff(failures) <= Backoff(more)
    ensures failures >= 6 ==> Backoff(failures) == 32
  {
    assert Pow2(1) == 2 && Pow2(2) == 4 && Pow2(3) == 8 && Pow2(4) == 16 && Pow2(5) == 32;
  }

  /** A round whose child stayed up long enough to forgive the failures before it. */
  predicate Stable(r: Round) {
    (r.event.Exited? || r.event.ExitedBeforeHealthy?) && r.event.runtime >= STABLE_RUNTIME_THRESHOLD
  }

  function StableCount(rounds: seq<Round>): nat {
    if rounds == [] then 0
    else StableCount(rounds[..|rounds| - 1]) + if Stable(rounds[|rounds| - 1]) then 1 else 0
  }

  function FailuresAfter(r: Round, failures: nat): nat {
    if Stable(r) then 1 else failures + 1
  }

  /** Only a child that ran for five minutes, healthy or not, makes the failures before it forgotten. */
  lemma FiveMinutesForgive(r: Round, failures: nat)
    ensures FailuresAfter(r, failures) ==
            match r.event
            case Exited(runtime) => if runtime >= 300 then 1 else failures + 1
            case ExitedBeforeHealthy(runtime) => if runtime >= 300 then 1 else failures + 1
            case _ => failures + 1
  {
  }

  /** Failures in a row at the end of the rounds. */
  function Streak(rounds: seq<Round>): nat {
    if rounds == [] then 0 else FailuresAfter(rounds[|rounds| - 1], Streak(rounds[..|rounds| - 1]))
  }

  /** All waits when each of the rounds is followed by its backoff. */
  function AllWaits(rounds: seq<Round>): nat {
    if rounds == [] then 0 else AllWaits(rounds[..|rounds| - 1]) + Backoff(Streak(rounds))
  }

  predicate EndsInShutdown(r: Round) {
    r.event.ShutdownSeen? || r.shutdown
  }

  /** Five rounds have gone by, of which the last four were not stable. */
  predicate FiveInARow(rounds: seq<Round>, n: nat)
    requires n <= |rounds|
  {
    n >= MAX_CONSECUTIVE_FAILURES && forall i :: n - MAX_CONSECUTIVE_FAILURES < i < n ==> !Stable(rounds[i])
  }

  function RecordChildExit(runtime: nat, failures: nat): nat {
    (if runtime >= STABLE_RUNTIME_THRESHOLD then 0 else failures) + 1
  }

  /** `Streak` rounds ago was the latest stable round, or the first of all. */
  predicate IsStreak(rounds: seq<Round>, n: nat, streak: nat) {
    && streak <= n <= |rounds| && (n > 0 ==> streak > 0)
    && (forall i :: n - streak < i < n ==> !Stable(rounds[i]))
    && (streak < n ==> Stable(rounds[n - streak]))
  }

  lemma StreakMeansFive(rounds: seq<Round>, n: nat, streak: nat)
    requires IsStreak(rounds, n, streak)
    ensures streak >= MAX_CONSECUTIVE_FAILURES <==> FiveInARow(rounds, n)
  {
    if streak < n && streak < MAX_CONSECUTIVE_FAILURES {
      assert Stable(rounds[n - streak]);
    }
  }

  /** The count of failures after a round that failed in one of the ways the loop tells apart. */
  method FailuresAfterRound(r: Round, before: nat) returns (failures: nat)
    requires !r.event.ShutdownSeen?
    ensures failures == FailuresAfter(r, before)
  {
    match r.event {
      case SocketDirFailed =>
        failures := before + 1;
      case SpawnFailed =>
        failures := before + 1;
      case Unhealthy =>
        failures := before + 1;
      case ExitedBeforeHealthy(runtime) =>
        failures := RecordChildExit(runtime, before);
      case Exited(runtime) =>
        failures := RecordChildExit(runtime, before);
    }
  }

  lemma StreakStep(rounds: seq<Round>, made: nat, failures: nat)
    requires made < |rounds| && IsStreak(rounds, made, failures)
    ensures var after := FailuresAfter(rounds[made], failures);
            && IsStreak(rounds, made + 1, after)
            && (after >= MAX_CONSECUTIVE_FAILURES <==> FiveInARow(rounds, made + 1))
  {
    StreakMeansFive(rounds, made + 1, FailuresAfter(rounds[made], failures));
  }

  /** What the counters mean after `made` rounds. */
  predicate Counted(rounds: seq<Round>, made: nat, failures: nat, waited: nat)
    requires made <= |rounds|
  {
    && IsStreak(rounds, made, failures)
    && failures == Streak(rounds[..made]) && waited == AllWaits(rounds[..made])
    && made <= 4 * StableCount(rounds[..made]) + failures
    && waited <= 15 * StableCount(rounds[..made]) + Waits(failures)
  }

  lemma CountedFrom(rounds: seq<Round>)
    ensures Counted(rounds, 0, 0, 0) && GoesOn(rounds, 0)
  {
  }

  lemma CountedStep(rounds: seq<Round>, made: nat, failures: nat, waited: nat)
    requires made < |rounds| && failures <= 4 && Counted(rounds, made, failures, waited)
    ensures var after := FailuresAfter(rounds[made], failures);
            && Counted(rounds, made + 1, after, waited + Backoff(after))
            && (after >= MAX_CONSECUTIVE_FAILURES <==> FiveInARow(rounds, made + 1))
    ensures made + 1 <= 4 * StableCount(rounds[..made + 1]) + 5
    ensures waited <= 15 * (StableCount(rounds[..made + 1]) + 1)
  {
    var r := rounds[made];
    var after := FailuresAfter(r, failures);
    assert rounds[..made + 1][..made] == rounds[..made];
    WaitsOfFour(failures);
    StreakStep(rounds, made, failures);
    hide Stable, Backoff, IsStreak, FiveInARow;
  }

  lemma CountedBounds(rounds: seq<Round>, made: nat, failures: nat, waited: nat)
    requires made <= |rounds| && failures <= 4 && Counted(rounds, made, failures, waited)
    ensures waited == AllWaits(rounds[..made])
    ensures made <= 4 * StableCount(rounds[..made]) + 5
    ensures waited <= 15 * (StableCount(rounds[..made]) + 1)
  {
    WaitsOfFour(failures);
  }

  /** After none of the first `n` rounds does the loop have a reason to end. */
  predicate GoesOn(rounds: seq<Round>, n: nat)
    requires n <= |rounds|
  {
    && (forall m :: 0 <= m <= n ==> !FiveInARow(rounds, m))
    && (forall i :: 0 <= i < n ==> !EndsInShutdown(rounds[i]))
  }

  lemma GoesOnStep(rounds: seq<Round>, n: nat)
    requires n < |rounds| && GoesOn(rounds, n)
    ensures var r := rounds[n];
            GoesOn(rounds, n + 1) <==> !FiveInARow(rounds, n + 1) && !r.event.ShutdownSeen? && !r.shutdown
    ensures EndsInShutdown(rounds[n]) <==> rounds[n].event.ShutdownSeen? || rounds[n].shutdown
  {
    hide FiveInARow;
  }

  /**
   * Runs the loop over the given rounds. It gives up at the first round that completes five
   * failures in a row, and not before.
   */
  method SuperviseLlmSidecar(rounds: seq<Round>) returns (end: End, made: nat, waited: nat)
    ensures made <= |rounds|
    ensures made > 0 ==> GoesOn(rounds, made - 1)
    ensures end.GaveUp? ==> FiveInARow(rounds, made) && !rounds[made - 1].event.ShutdownSeen?
    ensures end.ShutDown? ==> made > 0 && EndsInShutdown(rounds[made - 1])
    ensures end.StillRunning? ==> made == |rounds| && GoesOn(rounds, made)
    ensures var last := end.GaveUp? || (end.ShutDown? && rounds[made - 1].event.ShutdownSeen?);
            waited == AllWaits(rounds[..if last then made - 1 else made])
    ensures made <= 4 * StableCount(rounds[..made]) + 5
    ensures waited <= 15 * (StableCount(rounds[..made]) + 1)
  {
    var failures: nat := 0;
    made, waited := 0, 0;
    CountedFrom(rounds);
    hide FiveInARow, EndsInShutdown, Counted, StableCount, Backoff, Stable, AllWaits, GoesOn;
    while made < |rounds|
      invariant made <= |rounds| && failures <= 4
      invariant Counted(rounds, made, failures, waited)
      invariant GoesOn(rounds, made)
    {
      var r := rounds[made];
      GoesOnStep(rounds, made);
      CountedBounds(rounds, made, failures, waited);
      CountedStep(rounds, made, failures, waited);
      made := made + 1;
      if r.event.ShutdownSeen? {
        return ShutDown, made, waited;
      }
      failures := FailuresAfterRound(r, failures);
      if failures >= MAX_CONSECUTIVE_FAILURES {
        return GaveUp, made, waited;
      }
      waited := waited + Backoff(failures);
      CountedBounds(rounds, made, failures, waited);
      if r.shutdown {
        return ShutDown, made, waited;
      }
    }
    CountedBounds(rounds, made, failures, waited);
    end := StillRunning;
  }

  // ----- the bound is reached -----

  /** Four failures, then stable rounds with three failures after each, then one failure more. */
  function Worst(stable: nat): (rounds: seq<Round>)
    ensures |rounds| == 4 * stable + 5
    ensures forall i :: 0 <= i < |rounds| ==> (Stable(rounds[i]) <==> i % 4 == 0 && 4 <= i <= 4 * stable)
  {
    seq(4 * stable + 5, (i: nat) =>
      Round(Exited(if i % 4 == 0 && 4 <= i <= 4 * stable then STABLE_RUNTIME_THRESHOLD else 0), false))
  }

  lemma {:induction false} WorstCount(stable: nat, n: nat)
    requires 0 < n <= 4 * stable + 5
    ensures StableCount(Worst(stable)[..n]) == if (n - 1) / 4 < stable then (n - 1) / 4 else stable
  {
    var part := Worst(stable)[..n];
    assert part[..n - 1] == Worst(stable)[..n - 1];
    if n > 1 {
      WorstCount(stable, n - 1);
    }
  }

  /** For every number of stable rounds there is a run that reaches the bound on rounds. */
  lemma BoundIsReached(stable: nat)
    ensures var rounds := Worst(stable);
            && StableCount(rounds) == stable && |rounds| == 4 * stable + 5
            && FiveInARow(rounds, |rounds|) && forall n :: 0 <= n < |rounds| ==> !FiveInARow(rounds, n)
  {
    var rounds := Worst(stable);
    WorstCount(stable, |rounds|);
    assert rounds[..|rounds|] == rounds;
    forall n | 5 <= n < |rounds|
      ensures !FiveInARow(rounds, n)
    {
      assert Stable(rounds[(n - 1) / 4 * 4]);
    }
  }
}
