/**
 * The sidecar's side of a stream: provider events are written to the daemon as they come,
 * and a heartbeat is written whenever the provider stays quiet. Which of the two comes first
 * is decided by a race, and the request may be aborted at any time.
 */
module SidecarPump {
  import opened Common
  import opened Stream

  /** The outcome of one race, and whether the request has been aborted by then. */
  datatype Race = Beat(aborted: bool) | Settle(aborted: bool)

  /** What the provider's iterator does after its last event. */
  datatype Ending = Ends | Throws

  datatype Settled = Waiting | Value(event: StreamEvent) | Finished | Threw

  /** What a call of the iterator's `next` for position `i` resolves to. */
  function NextResult(events: seq<StreamEvent>, ending: Ending, i: nat): Settled {
    if i < |events| then Value(events[i]) else if ending == Ends then Finished else Threw
  }

  /** `out` is `events` in order, with heartbeats anywhere between and after them. */
  predicate PingsInserted(out: seq<StreamEvent>, events: seq<StreamEvent>)
    decreases |out|
  {
    if out == [] then events == []
    else
      var front, last := out[..|out| - 1], out[|out| - 1];
      || (events != [] && last == events[|events| - 1] && PingsInserted(front, events[..|events| - 1]))
      || (last == Ping && PingsInserted(front, events))
  }

  /** The number of provider results delivered in the races so far. */
  function CountSettled(races: seq<Race>): nat {
    if races == [] then 0 else CountSettled(races[..|races| - 1]) + if races[|races| - 1].Settle? then 1 else 0
  }

  lemma SettledSoFar(races: seq<Race>, r: nat)
    requires r < |races|
    ensures CountSettled(races[..r + 1]) == CountSettled(races[..r]) + if races[r].Settle? then 1 else 0
  {
    assert races[..r + 1][..r] == races[..r];
  }

  /**
   * What is still written from race `r` on, while the result for position `pos` is waited for,
   * and whether the stream is then closed.
   */
  function Rest(events: seq<StreamEvent>, races: seq<Race>, pos: nat, r: nat): (seq<StreamEvent>, bool)
    requires r <= |races|
    decreases |races| - r, 1
  {
    if r == |races| then ([], false)
    else if races[r].Settle? then Delivered(events, races, pos, r + 1, races[r].aborted)
    else if races[r].aborted then ([], true)
    else
      var more := Rest(events, races, pos, r + 1);
      ([Ping] + more.0, more.1)
  }

  /** The same once that result has settled: an event is written even if the request was aborted meanwhile. */
  function Delivered(events: seq<StreamEvent>, races: seq<Race>, pos: nat, r: nat, aborted: bool):
    (seq<StreamEvent>, bool)
    requires r <= |races|
    decreases |races| - r, 2
  {
    if pos >= |events| then ([], true)
    else if aborted then ([events[pos]], true)
    else
      var more := Rest(events, races, pos + 1, r);
      ([events[pos]] + more.0, more.1)
  }

  /** All that the pump writes. */
  function Schedule(first: StreamEvent, events: seq<StreamEvent>, abortedAtStart: bool, races: seq<Race>):
    (seq<StreamEvent>, bool)
  {
    if abortedAtStart then ([first], true)
    else
      var more := Rest(events, races, 0, 0);
      ([first] + more.0, more.1)
  }

  ghost predicate Continues(all: (seq<StreamEvent>, bool), written: seq<StreamEvent>, more: (seq<StreamEvent>, bool)) {
    all.0 == written + more.0 && all.1 == more.1
  }

  lemma ContinuesAfter(all: (seq<StreamEvent>, bool), written: seq<StreamEvent>, e: StreamEvent,
                       more: (seq<StreamEvent>, bool))
    requires Continues(all, written, ([e] + more.0, more.1))
    ensures Continues(all, written + [e], more)
  {
    assert written + ([e] + more.0) == written + [e] + more.0;
  }

  predicate NeverAborted(races: seq<Race>) {
    forall i :: 0 <= i < |races| ==> !races[i].aborted
  }

  /**
   * Races one pending result against the heartbeat until it settles, the request is aborted,
   * or the races run out. The same result is raced again after each heartbeat, which is
   * written, so a heartbeat never replaces an event.
   */
  method RaceNext(next: Settled, races: seq<Race>, start: nat, out: seq<StreamEvent>,
                  ghost events: seq<StreamEvent>, ghost pos: nat, ghost all: (seq<StreamEvent>, bool))
    returns (settled: Settled, r: nat, aborted: bool, written: seq<StreamEvent>)
    requires next != Waiting && start <= |races|
    requires Continues(all, out, Rest(events, races, pos, start))
    ensures start <= r <= |races| && (settled == Waiting || settled == next)
    ensures settled == Waiting ==> Continues(all, written, ([], aborted))
    ensures settled != Waiting ==> Continues(all, written, Delivered(events, races, pos, r, aborted))
    ensures CountSettled(races[..r]) == CountSettled(races[..start]) + if settled == Waiting then 0 else 1
    ensures settled == Waiting ==> aborted || r == |races|
    ensures settled != Waiting ==> start < r
    ensures aborted ==> !NeverAborted(races)
  {
    hide CountSettled, Delivered, Continues;
    settled, r, aborted, written := Waiting, start, false, out;
    while settled == Waiting && r < |races|
      invariant start <= r <= |races| && (settled == Waiting || settled == next) && (settled != Waiting ==> start < r)
      invariant CountSettled(races[..r]) == CountSettled(races[..start]) + if settled == Waiting then 0 else 1
      invariant aborted ==> !NeverAborted(races)
      invariant settled == Waiting ==> !aborted && Continues(all, written, Rest(events, races, pos, r))
      invariant settled != Waiting ==> Continues(all, written, Delivered(events, races, pos, r, aborted))
    {
      SettledSoFar(races, r);
      var race := races[r];
      r := r + 1;
      aborted := race.aborted;
      if race.Beat? {
        if aborted {
          break;
        }
        ContinuesAfter(all, written, Ping, Rest(events, races, pos, r));
        written := written + [Ping];
      } else {
        settled := next;
      }
    }
  }

  lemma Ended(all: (seq<StreamEvent>, bool), written: seq<StreamEvent>, closed: bool)
    requires Continues(all, written, ([], closed))
    ensures all == (written, closed)
  {
    assert written + [] == written;
  }

  lemma NothingDelivered(all: (seq<StreamEvent>, bool), written: seq<StreamEvent>, events: seq<StreamEvent>,
                         races: seq<Race>, pos: nat, r: nat, aborted: bool)
    requires pos >= |events| && r <= |races| && Continues(all, written, Delivered(events, races, pos, r, aborted))
    ensures Continues(all, written, ([], true))
  {
  }

  lemma EventDelivered(all: (seq<StreamEvent>, bool), written: seq<StreamEvent>, events: seq<StreamEvent>,
                       races: seq<Race>, pos: nat, r: nat, aborted: bool)
    requires pos < |events| && r <= |races| && Continues(all, written, Delivered(events, races, pos, r, aborted))
    ensures Continues(all, written + [events[pos]], if aborted then ([], true) else Rest(events, races, pos + 1, r))
  {
    hide Continues, Rest;
    var more := if aborted then ([], true) else Rest(events, races, pos + 1, r);
    assert [events[pos]] + [] == [events[pos]];
    ContinuesAfter(all, written, events[pos], more);
  }

  // ----- what the schedule comes to -----

  function CountBeats(races: seq<Race>): nat {
    if races == [] then 0 else CountBeats(races[..|races| - 1]) + if races[|races| - 1] == Beat(false) then 1 else 0
  }

  lemma {:induction false} CountsFrom(races: seq<Race>)
    requires races != []
    ensures CountSettled(races) == (if races[0].Settle? then 1 else 0) + CountSettled(races[1..])
    ensures CountBeats(races) == (if races[0] == Beat(false) then 1 else 0) + CountBeats(races[1..])
  {
    var front := races[..|races| - 1];
    if front == [] {
      assert races[1..] == [] && races == [races[0]];
    } else {
      CountsFrom(front);
      assert races[1..][..|races| - 2] == front[1..];
    }
  }

  /** The pump stops after a race if the request is aborted by then, or the provider's last result was taken. */
  predicate StopsAfter(events: seq<StreamEvent>, races: seq<Race>, i: nat)
    requires i < |races|
  {
    races[i].aborted || CountSettled(races[..i + 1]) > |events|
  }

  /** The pump runs through the first `u` races, and stops there or because there are no more. */
  predicate RunsThrough(events: seq<StreamEvent>, races: seq<Race>, u: nat, closed: bool) {
    && u <= |races| && (forall i :: 0 <= i < u - 1 ==> !StopsAfter(events, races, i))
    && (closed <==> u > 0 && StopsAfter(events, races, u - 1)) && (!closed ==> u == |races|)
  }

  /** Each result that settled has been written while there were events, and a heartbeat for each beat. */
  predicate WrittenBy(out: seq<StreamEvent>, events: seq<StreamEvent>, races: seq<Race>) {
    var n := Min(CountSettled(races), |events|);
    PingsInserted(out, events[..n]) && |out| == n + CountBeats(races)
  }

  lemma {:induction false} PingsInsertedBefore(out: seq<StreamEvent>, events: seq<StreamEvent>, e: StreamEvent)
    requires PingsInserted(out, events)
    ensures PingsInserted([e] + out, [e] + events)
    ensures e == Ping ==> PingsInserted([e] + out, events)
    decreases |out|
  {
    if out == [] {
      assert [e][..0] == [] && [e] + out == [e];
      assert [e] + events == [e];
    } else {
      var front, last := out[..|out| - 1], out[|out| - 1];
      assert ([e] + out)[..|out|] == [e] + front;
      if last == Ping && PingsInserted(front, events) {
        PingsInsertedBefore(front, events, e);
      } else {
        PingsInsertedBefore(front, events[..|events| - 1], e);
        assert ([e] + events)[..|events|] == [e] + events[..|events| - 1];
      }
    }
  }

  /** Races and events from `r` and `pos` on are all that matters. */
  lemma {:induction false} RestOfSuffix(events: seq<StreamEvent>, races: seq<Race>, pos: nat, r: nat)
    requires r <= |races| && pos <= |events|
    ensures Rest(events, races, pos, r) == Rest(events[pos..], races[r..], 0, 0)
    decreases |races| - r
  {
    if r < |races| {
      var es, rs := events[pos..], races[r..];
      RestOfSuffix(events, races, pos, r + 1);
      RestOfSuffix(es, rs, 0, 1);
      assert rs[1..] == races[r + 1..] && es[0..] == es;
      if pos < |events| {
        RestOfSuffix(events, races, pos + 1, r + 1);
        RestOfSuffix(es, rs, 1, 1);
        assert es[1..] == events[pos + 1..];
      }
    }
  }

  /** The pump after its first race, if it goes on. */
  lemma RestStep(events: seq<StreamEvent>, races: seq<Race>)
    requires races != []
    ensures var race, rest := races[0], Rest(events, races[1..], 0, 0);
            Rest(events, races, 0, 0) ==
              if race.Beat? then (if race.aborted then ([], true) else ([Ping] + rest.0, rest.1))
              else if events == [] then ([], true)
              else if race.aborted then ([events[0]], true)
              else ([events[0]] + Rest(events[1..], races[1..], 0, 0).0, Rest(events[1..], races[1..], 0, 0).1)
  {
    RestOfSuffix(events, races, 0, 1);
    assert events[0..] == events;
    if events != [] { RestOfSuffix(events, races, 1, 1); }
  }

  lemma RunsThroughNext(events: seq<StreamEvent>, races: seq<Race>, rest: seq<StreamEvent>, u: nat, closed: bool)
    requires races != [] && !StopsAfter(events, races, 0)
    requires rest == if races[0].Settle? then events[1..] else events
    requires races[0].Settle? ==> events != []
    requires RunsThrough(rest, races[1..], u, closed)
    ensures RunsThrough(events, races, u + 1, closed)
  {
    forall i | 0 < i < |races|
      ensures StopsAfter(events, races, i) <==> StopsAfter(rest, races[1..], i - 1)
    {
      assert races[..i + 1][1..] == races[1..][..i];
      CountsFrom(races[..i + 1]);
    }
    hide StopsAfter;
    forall i | 0 <= i < u
      ensures !StopsAfter(events, races, i)
    {
      assert i > 0 ==> !StopsAfter(rest, races[1..], i - 1);
    }
  }

  lemma {:induction false} RestMeans(events: seq<StreamEvent>, races: seq<Race>) returns (u: nat)
    ensures var (out, closed) := Rest(events, races, 0, 0);
            RunsThrough(events, races, u, closed) && WrittenBy(out, events, races[..u])
    decreases |races|
  {
    u := 0;
    if races != [] {
      var race, later := races[0], races[1..];
      RestStep(events, races);
      OneRace(events, races);
      hide Rest, RunsThrough, WrittenBy, StopsAfter;
      if StopsAfter(events, races, 0) {
        u := 1;
      } else {
        var rest := if race.Settle? then events[1..] else events;
        u := RestMeans(rest, later);
        RunsThroughNext(events, races, rest, u, Rest(rest, later, 0, 0).1);
        WrittenNext(Rest(rest, later, 0, 0).0, events, races, u);
        u := u + 1;
      }
    } else {
      assert races[..0] == [];
    }
  }

  lemma OneRace(events: seq<StreamEvent>, races: seq<Race>)
    requires races != []
    ensures StopsAfter(events, races, 0) <==> races[0].aborted || (races[0].Settle? && events == [])
    ensures StopsAfter(events, races, 0) ==> RunsThrough(events, races, 1, true)
    ensures StopsAfter(events, races, 0) ==>
      WrittenBy(if races[0].Settle? && events != [] then [events[0]] else [], events, races[..1])
  {
    assert races[..1][..0] == [];
    assert CountSettled(races[..1]) == if races[0].Settle? then 1 else 0;
    assert CountBeats(races[..1]) == if races[0] == Beat(false) then 1 else 0;
    if events != [] {
      assert [events[0]][..0] == [] && events[..1] == [events[0]] && events[..1][..0] == [] && events[..0] == [];
    }
  }

  lemma WrittenNext(out: seq<StreamEvent>, events: seq<StreamEvent>, races: seq<Race>, u: nat)
    requires races != [] && u < |races| && !races[0].aborted && (races[0].Settle? ==> events != [])
    requires WrittenBy(out, if races[0].Settle? then events[1..] else events, races[1..][..u])
    ensures WrittenBy([if races[0].Settle? then events[0] else Ping] + out, events, races[..u + 1])
  {
    var now, before := races[..u + 1], races[1..][..u];
    assert now[1..] == before;
    CountsFrom(now);
    var n := Min(CountSettled(before), |if races[0].Settle? then events[1..] else events|);
    if races[0].Settle? {
      PingsInsertedBefore(out, events[1..][..n], events[0]);
      assert [events[0]] + events[1..][..n] == events[..n + 1];
    } else {
      PingsInsertedBefore(out, events[..n], Ping);
    }
    hide PingsInserted, CountSettled, CountBeats;
  }

  /**
   * Writes the first event, and then every provider event as it settles. The result is what
   * was written, and whether the stream was closed or is still open when the races run out.
   * Of the races, the first `used` were run: up to the first by which the request was aborted
   * or that took the provider's last result. Each of them wrote one thing: a result that
   * settled its event, also if the request was aborted meanwhile, and a beat its heartbeat.
   */
  method Pump(first: StreamEvent, events: seq<StreamEvent>, ending: Ending, abortedAtStart: bool, races: seq<Race>)
    returns (written: seq<StreamEvent>, closed: bool, ghost n: nat, ghost used: nat)
    ensures (written, closed) == Schedule(first, events, abortedAtStart, races)
    ensures n <= |events| && PingsInserted(written, [first] + events[..n])
    ensures !closed ==> n == CountSettled(races)
    ensures closed && !abortedAtStart && NeverAborted(races) ==> n == |events|
    ensures abortedAtStart ==> written == [first] && closed
    ensures !abortedAtStart ==> RunsThrough(events, races, used, closed)
    ensures !abortedAtStart ==> n == Min(CountSettled(races[..used]), |events|)
    ensures !abortedAtStart ==> |written| == 1 + n + CountBeats(races[..used])
  {
    written := [first];
    ghost var all := Schedule(first, events, abortedAtStart, races);
    n, used := ScheduleMeans(first, events, abortedAtStart, races);
    assert Continues(all, written, if abortedAtStart then ([], true) else Rest(events, races, 0, 0));
    hide PingsInserted, CountSettled, CountBeats, NeverAborted, Schedule, Rest, Continues, Delivered, RunsThrough;
    var pos := 0;
    var aborted := abortedAtStart;
    var r: nat := 0;
    while true
      invariant r <= |races| && pos <= |events|
      invariant Continues(all, written, if aborted then ([], true) else Rest(events, races, pos, r))
      decreases |races| - r
    {
      if aborted {
        Ended(all, written, true);
        break;
      }
      var next := NextResult(events, ending, pos);
      pos := pos + 1;
      var settled;
      settled, r, aborted, written := RaceNext(next, races, r, written, events, pos - 1, all);
      if settled == Waiting && !aborted {
        Ended(all, written, false);
        return written, false, n, used;
      }
      if settled == Waiting || settled == Finished || settled == Threw {
        if settled != Waiting { NothingDelivered(all, written, events, races, pos - 1, r, aborted); }
        Ended(all, written, true);
        break;
      }
      EventDelivered(all, written, events, races, pos - 1, r, aborted);
      written := written + [settled.event];
    }
    closed := true;
  }

  lemma ScheduleMeans(first: StreamEvent, events: seq<StreamEvent>, abortedAtStart: bool, races: seq<Race>)
    returns (n: nat, used: nat)
    ensures var (written, closed) := Schedule(first, events, abortedAtStart, races);
            && n <= |events| && PingsInserted(written, [first] + events[..n])
            && (!closed ==> n == CountSettled(races))
            && (closed && !abortedAtStart && NeverAborted(races) ==> n == |events|)
            && (abortedAtStart ==> written == [first] && closed)
            && (!abortedAtStart ==>
                  && RunsThrough(events, races, used, closed) && n == Min(CountSettled(races[..used]), |events|)
                  && |written| == 1 + n + CountBeats(races[..used]))
  {
    n, used := 0, 0;
    if abortedAtStart {
      assert [first][..0] == [] && [first] + events[..0] == [first];
    } else {
      used := RestMeans(events, races);
      var (out, closed) := Rest(events, races, 0, 0);
      n := Min(CountSettled(races[..used]), |events|);
      PingsInsertedBefore(out, events[..n], first);
      assert races[..|races|] == races;
      if !closed { NotStopped(events, races); }
      hide PingsInserted, CountSettled, CountBeats, Rest;
    }
  }

  lemma NotStopped(events: seq<StreamEvent>, races: seq<Race>)
    requires RunsThrough(events, races, |races|, false)
    ensures CountSettled(races) <= |events|
  {
    if races != [] { assert !StopsAfter(events, races, |races| - 1) && races[..|races|] == races; }
  }

  // ----- end to end -----

  function Lines(events: seq<StreamEvent>): (lines: seq<Line>)
    ensures |lines| == |events| && forall i :: 0 <= i < |events| ==> lines[i] == Event(events[i])
  {
    seq(|events|, i requires 0 <= i < |events| => Event(events[i]))
  }

  lemma {:induction false} WithoutPingsAppend(a: seq<Line>, b: seq<Line>)
    ensures WithoutPings(a + b) == WithoutPings(a) + WithoutPings(b)
  {
    if a == [] {
      assert a + b == b;
    } else {
      assert (a + b)[1..] == a[1..] + b;
      WithoutPingsAppend(a[1..], b);
    }
  }

  lemma WithoutPingsLast(lines: seq<Line>)
    requires lines != []
    ensures var front, last := lines[..|lines| - 1], lines[|lines| - 1];
            WithoutPings(lines) == WithoutPings(front) + if IsPing(last) then [] else [last]
  {
    var front, last := lines[..|lines| - 1], lines[|lines| - 1];
    assert lines == front + [last];
    WithoutPingsAppend(front, [last]);
    assert [last][1..] == [];
  }

  /** Apart from heartbeats nothing is added, lost or reordered. */
  lemma {:induction false} InsertedOnlyPings(out: seq<StreamEvent>, events: seq<StreamEvent>)
    requires PingsInserted(out, events)
    ensures WithoutPings(Lines(out)) == WithoutPings(Lines(events))
    decreases |out|
  {
    if out == [] {
      assert Lines(out) == Lines(events) == [];
    } else {
      var front, last := out[..|out| - 1], out[|out| - 1];
      assert Lines(out)[..|out| - 1] == Lines(front);
      WithoutPingsLast(Lines(out));
      if events != [] && last == events[|events| - 1] && PingsInserted(front, events[..|events| - 1]) {
        assert Lines(events)[..|events| - 1] == Lines(events[..|events| - 1]);
        WithoutPingsLast(Lines(events));
        InsertedOnlyPings(front, events[..|events| - 1]);
      } else {
        InsertedOnlyPings(front, events);
      }
    }
  }

  /**
   * Heartbeats are invisible end to end: whatever the pump writes is consumed like some
   * prefix of the provider's events, with the same result and the same frames relayed.
   */
  lemma PumpedIsConsumedAlike(written: seq<StreamEvent>, events: seq<StreamEvent>)
    requires PingsInserted(written, events)
    ensures Consumed(EMPTY, Lines(written)) == Consumed(EMPTY, Lines(events))
  {
    InsertedOnlyPings(written, events);
    PingsAreIgnored(EMPTY, Lines(written));
    PingsAreIgnored(EMPTY, Lines(events));
  }

  /**
   * The whole pipeline, pump and consumer. Without an abort the daemon gets the result of all
   * provider events; after an abort or a failure of the iterator it gets the result of a prefix,
   * which is an incomplete stream unless that prefix holds a terminal event.
   */
  method Relay(consumer: StreamConsumer, first: StreamEvent, events: seq<StreamEvent>, ending: Ending,
               abortedAtStart: bool, races: seq<Race>)
    returns (r: Result<StreamResult, StreamError>, closed: bool, ghost n: nat)
    modifies consumer
    ensures n <= |events|
    ensures r == Consumed(EMPTY, Lines([first] + events[..n])).0
    ensures consumer.sent == old(consumer.sent) + Consumed(EMPTY, Lines([first] + events[..n])).1
    ensures Shows(consumer.sent[|old(consumer.sent)|..], Heard(Lines([first] + events[..n])))
    ensures closed && !abortedAtStart && NeverAborted(races) ==> r == Consumed(EMPTY, Lines([first] + events)).0
    ensures r == Err(IncompleteStream) <==> !Terminal(first) && forall i :: 0 <= i < n ==> !Terminal(events[i])
  {
    var written;
    ghost var used;
    written, closed, n, used := Pump(first, events, ending, abortedAtStart, races);
    r := consumer.Consume(Lines(written));
    ghost var prefix := [first] + events[..n];
    PumpedIsConsumedAlike(written, prefix);
    ShowsHeard(EMPTY, Lines(prefix));
    IncompleteIffNoTerminal(EMPTY, Lines(prefix));
    PrefixTerminals(first, events, n);
    if n == |events| {
      assert events[..n] == events;
    }
  }

  lemma PrefixTerminals(first: StreamEvent, events: seq<StreamEvent>, n: nat)
    requires n <= |events|
    ensures NoTerminal(Lines([first] + events[..n]))
       <==> !Terminal(first) && forall i :: 0 <= i < n ==> !Terminal(events[i])
  {
    hide Terminal;
    var all := [first] + events[..n];
    var lines := Lines(all);
    if NoTerminal(lines) {
      assert lines[0] == Event(first);
      forall i | 0 <= i < n
        ensures !Terminal(events[i])
      {
        assert lines[i + 1] == Event(events[i]);
      }
    }
    if !Terminal(first) && forall i :: 0 <= i < n ==> !Terminal(events[i]) {
      forall i | 0 <= i < |lines|
        ensures !Terminal(lines[i].event)
      {
        assert i > 0 ==> all[i] == events[i - 1];
      }
    }
  }
}
