/**
 * What a stream of any lines comes to: the line that ends the reading decides the result, and
 * the client is shown the text and the thinking of the events before it, each as what it is.
 */
module StreamOutcome {
  import opened Common
  import opened Stream
  import opened StreamRoundTrip

  /** The number of lines before the first one that ends the reading. */
  function LinesHeard(lines: seq<Line>): (n: nat)
    ensures n <= |lines| && (n < |lines| ==> EndsReading(lines[n]))
    ensures forall i :: 0 <= i < n ==> !EndsReading(lines[i])
  {
    if lines == [] || EndsReading(lines[0]) then 0 else 1 + LinesHeard(lines[1..])
  }

  lemma FoldFirst(a: Acc, e: StreamEvent, es: seq<StreamEvent>)
    ensures Fold(a, [e] + es) == Fold(Absorb(a, e), es)
  {
    FoldConcat(a, [e], es);
    assert [e][..0] == [];
    assert Fold(a, [e]) == Absorb(a, e);
  }

  /**
   * The result of any lines. Without a line that ends the reading the stream is incomplete;
   * otherwise that line decides, whatever comes after it. A terminal event hands on what it
   * carries, with the blocks and tool calls of the events before it.
   */
  lemma {:induction false} EndDecides(a: Acc, lines: seq<Line>)
    ensures var (r, n, f) := (Consumed(a, lines).0, LinesHeard(lines), Flush(Fold(a, Heard(lines))));
            if n == |lines| then r == Err(IncompleteStream)
            else match lines[n]
              case Blank => false
              case Malformed => r == Err(Deserialize)
              case Unreadable => r == Err(ReadFailed)
              case Event(Done(content, reason, usage)) =>
                && r.Ok? && r.value.content == content && r.value.finishReason == reason && r.value.usage == usage
                && r.value.blocks == f.blocks && r.value.toolUses == f.toolUses
                && r.value.model == if f.started then f.model else ""
              case Event(Error(message, usage)) => r == Err(StreamErrored(message, usage))
              case Event(_) => false
    decreases |lines|
  {
    if lines != [] && !EndsReading(lines[0]) {
      var rest := lines[1..];
      assert LinesHeard(lines) == 1 + LinesHeard(rest);
      assert LinesHeard(rest) < |rest| ==> lines[1 + LinesHeard(rest)] == rest[LinesHeard(rest)];
      if lines[0].Blank? {
        EndDecides(a, rest);
      } else {
        var e := lines[0].event;
        EndDecides(Absorb(a, e), rest);
        FoldFirst(a, e, Heard(rest));
      }
    }
    hide Absorb, Fold, LinesHeard, EndsReading;
  }

  // ----- the texts shown -----

  /** The texts of the chunks of one type, joined. */
  function Joined(frames: seq<Frame>, contentType: string): string {
    if frames == [] then ""
    else Joined(frames[..|frames| - 1], contentType) +
         match frames[|frames| - 1]
         case StreamStart => ""
         case StreamChunk(text, ty) => if ty == contentType then text else ""
  }

  function CountStarts(es: seq<StreamEvent>): nat {
    if es == [] then 0 else CountStarts(es[..|es| - 1]) + if es[|es| - 1].Start? then 1 else 0
  }

  function CountStartFrames(frames: seq<Frame>): nat {
    if frames == [] then 0
    else CountStartFrames(frames[..|frames| - 1]) + if frames[|frames| - 1].StreamStart? then 1 else 0
  }

  lemma {:induction false} ShownAppend(es: seq<StreamEvent>, e: StreamEvent)
    ensures Shown(es + [e]) == Shown(es) + Shown([e])
    ensures Shown([e]) == if e.Start? || e.Text? || e.Thinking? then [e] else []
  {
    ShownOf([e]);
    assert [e][1..] == [] && Shown([]) == [];
    if es == [] {
      assert es + [e] == [e];
    } else {
      ShownAppend(es[1..], e);
      assert (es + [e])[1..] == es[1..] + [e];
      ShownOf(es);
      ShownOf(es + [e]);
      hide Shown;
    }
  }

  lemma ShownOf(es: seq<StreamEvent>)
    requires es != []
    ensures Shown(es) == (if es[0].Start? || es[0].Text? || es[0].Thinking? then [es[0]] else []) + Shown(es[1..])
  {
  }

  /** The client reads exactly the text as text and the thinking as thinking, and one opening for each. */
  lemma {:induction false} ShownTexts(frames: seq<Frame>, es: seq<StreamEvent>)
    requires Shows(frames, es)
    ensures Joined(frames, "text") == TextsOf(es) && Joined(frames, "thinking") == ThoughtsOf(es)
    ensures CountStartFrames(frames) == CountStarts(es)
    decreases |es|
  {
    if es == [] {
      assert frames == [];
    } else {
      var front, e := es[..|es| - 1], es[|es| - 1];
      assert es == front + [e];
      ShownAppend(front, e);
      if e.Start? || e.Text? || e.Thinking? {
        var before, f := frames[..|frames| - 1], frames[|frames| - 1];
        assert Tells(f, e);
        ShowsFront(frames, front, e);
        ShownTexts(before, front);
      } else {
        assert Shown(es) == Shown(front);
        ShownTexts(frames, front);
      }
    }
  }

  lemma ShowsFront(frames: seq<Frame>, front: seq<StreamEvent>, e: StreamEvent)
    requires Shows(frames, front + [e]) && (e.Start? || e.Text? || e.Thinking?)
    ensures frames != [] && Shows(frames[..|frames| - 1], front) && Tells(frames[|frames| - 1], e)
  {
    ShownAppend(front, e);
    var shown := Shown(front);
    assert Shown(front + [e]) == shown + [e];
    hide Shown, Tells;
  }

  /** Over all lines: what the client reads is what the events before the end say. */
  lemma ClientReads(lines: seq<Line>)
    ensures var frames, es := Consumed(EMPTY, lines).1, Heard(lines);
            && Joined(frames, "text") == TextsOf(es) && Joined(frames, "thinking") == ThoughtsOf(es)
            && CountStartFrames(frames) == CountStarts(es) && |frames| == |Shown(es)|
  {
    ShowsHeard(EMPTY, lines);
    ShownTexts(Consumed(EMPTY, lines).1, Heard(lines));
  }
}
