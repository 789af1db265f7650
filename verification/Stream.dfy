/**
 * The consumer of a model's event stream: deltas are buffered and assembled into content
 * blocks, chunks are relayed to the client, and a terminal event ends the call.
 */
module Stream {
  import opened Common

  datatype Usage = Usage(inputTokens: nat, outputTokens: nat, cacheRead: nat, cacheWrite: nat)

  datatype StreamEvent =
    | Start(model: string)
    | Text(text: string)
    | Thinking(text: string)
    | ThinkingSignature(signature: string)
    | RedactedThinking(data: string)
    | ToolUse(tool: ToolCall)
    | Done(content: string, finishReason: string, usage: Usage)
    | Ping
    | Error(message: string, partialUsage: Usage)

  /** `input` is the JSON of the arguments. */
  datatype ToolCall = ToolCall(id: string, name: string, input: string)

  datatype ContentBlock =
    | TextBlock(text: string)
    | ThinkingBlock(thinking: string, signature: Option<string>)
    | ToolUseBlock(tool: ToolCall)
    | RedactedBlock(data: string)
    | ToolResultBlock(toolUseId: string, content: string, isError: bool)

  /** What is relayed to the client while the stream is consumed. */
  datatype Frame = StreamStart | StreamChunk(text: string, contentType: string)

  /** What reading a line gives: a blank line, something else than an event, an event, or a failure to read. */
  datatype Line = Blank | Malformed | Unreadable | Event(event: StreamEvent)

  datatype StreamResult = StreamResult(
    content: string,
    model: string,
    finishReason: string,
    usage: Usage,
    toolUses: seq<ToolCall>,
    blocks: seq<ContentBlock>)

  datatype StreamError =
    | IncompleteStream
    | Deserialize
    | ReadFailed
    | StreamErrored(message: string, usage: Usage)

  // ----- the accumulator as a value -----

  datatype Acc = Acc(
    model: string,
    toolUses: seq<ToolCall>,
    blocks: seq<ContentBlock>,
    textBuf: string,
    thinkingBuf: string,
    pendingSignature: Option<string>,
    started: bool)

  const EMPTY := Acc("", [], [], "", "", None, false)

  function FlushText(a: Acc): Acc {
    if a.textBuf == "" then a else a.(blocks := a.blocks + [TextBlock(a.textBuf)], textBuf := "")
  }

  function FlushThinking(a: Acc): Acc {
    if a.thinkingBuf == "" then a
    else a.(blocks := a.blocks + [ThinkingBlock(a.thinkingBuf, a.pendingSignature)],
            thinkingBuf := "", pendingSignature := None)
  }

  function Flush(a: Acc): Acc {
    FlushThinking(FlushText(a))
  }

  predicate Terminal(e: StreamEvent) {
    e.Done? || e.Error?
  }

  /** The accumulator after an event that does not end the stream. */
  function Absorb(a: Acc, e: StreamEvent): Acc {
    match e
    case Start(model) => a.(model := model, started := true)
    case Text(text) => var f := FlushThinking(a); f.(textBuf := f.textBuf + text)
    case Thinking(text) => var f := FlushText(a); f.(thinkingBuf := f.thinkingBuf + text)
    case ThinkingSignature(s) => a.(pendingSignature := Some(s))
    case RedactedThinking(data) => var f := Flush(a); f.(blocks := f.blocks + [RedactedBlock(data)])
    case ToolUse(tool) =>
      var f := Flush(a);
      f.(blocks := f.blocks + [ToolUseBlock(tool)], toolUses := f.toolUses + [tool])
    case Done(_, _, _) => a
    case Ping => a
    case Error(_, _) => a
  }

  function Finish(a: Acc, content: string, finishReason: string, usage: Usage): StreamResult {
    var f := Flush(a);
    StreamResult(content, if a.started then a.model else "", finishReason, usage, f.toolUses, f.blocks)
  }

  function FramesOf(e: StreamEvent): seq<Frame> {
    match e
    case Start(_) => [StreamStart]
    case Text(text) => [StreamChunk(text, "text")]
    case Thinking(text) => [StreamChunk(text, "thinking")]
    case _ => []
  }

  /** The outcome of the remaining lines, and the frames relayed on the way. */
  function Consumed(a: Acc, lines: seq<Line>): (Result<StreamResult, StreamError>, seq<Frame>)
    decreases |lines|
  {
    if lines == [] then (Err(IncompleteStream), [])
    else match lines[0]
      case Blank => Consumed(a, lines[1..])
      case Malformed => (Err(Deserialize), [])
      case Unreadable => (Err(ReadFailed), [])
      case Event(e) =>
        match e
        case Done(content, reason, usage) => (Ok(Finish(a, content, reason, usage)), [])
        case Error(message, usage) => (Err(StreamErrored(message, usage)), [])
        case _ =>
          var (result, frames) := Consumed(Absorb(a, e), lines[1..]);
          (result, FramesOf(e) + frames)
  }

  // ----- what the client sees -----

  /** The line ends the reading: a terminal event, or no event at all. */
  predicate EndsReading(line: Line) {
    line.Malformed? || line.Unreadable? || (line.Event? && Terminal(line.event))
  }

  /** The events that are read before the first line that ends the reading. */
  function Heard(lines: seq<Line>): seq<StreamEvent>
    decreases |lines|
  {
    if lines == [] || EndsReading(lines[0]) then []
    else if lines[0].Blank? then Heard(lines[1..]) else [lines[0].event] + Heard(lines[1..])
  }

  /** The events that the client is shown: openings, text and thinking. */
  function Shown(es: seq<StreamEvent>): seq<StreamEvent> {
    if es == [] then []
    else (if es[0].Start? || es[0].Text? || es[0].Thinking? then [es[0]] else []) + Shown(es[1..])
  }

  /** The frame tells the client of the event. */
  predicate Tells(f: Frame, e: StreamEvent) {
    if e.Start? then f == StreamStart
    else if e.Text? then f == StreamChunk(e.text, "text")
    else e.Thinking? && f == StreamChunk(e.text, "thinking")
  }

  /** One frame for each event that is to be shown, in the order of the events, and no other. */
  predicate Shows(frames: seq<Frame>, es: seq<StreamEvent>) {
    |frames| == |Shown(es)| && forall i :: 0 <= i < |frames| ==> Tells(frames[i], Shown(es)[i])
  }

  /** The client is shown the events before the first line that ends the reading. */
  lemma {:induction false} ShowsHeard(a: Acc, lines: seq<Line>)
    ensures Shows(Consumed(a, lines).1, Heard(lines))
    decreases |lines|
  {
    hide Absorb, Finish;
    if lines != [] && !EndsReading(lines[0]) {
      var rest := lines[1..];
      if lines[0].Blank? {
        ShowsHeard(a, rest);
      } else {
        var e := lines[0].event;
        ShowsHeard(Absorb(a, e), rest);
        assert Heard(lines)[0] == e && Heard(lines)[1..] == Heard(rest);
        ShowsNext(e, Heard(rest), Consumed(Absorb(a, e), rest).1);
      }
    }
  }

  lemma ShowsNext(e: StreamEvent, es: seq<StreamEvent>, frames: seq<Frame>)
    requires Shows(frames, es)
    ensures Shows(FramesOf(e) + frames, [e] + es)
  {
    var shown := Shown(es);
    assert ([e] + es)[1..] == es;
    assert Shown([e] + es) == (if e.Start? || e.Text? || e.Thinking? then [e] else []) + shown;
    hide Shown;
  }

  // ----- the consumer itself -----

  class ConsumeState {
    var model: string
    var toolUses: seq<ToolCall>
    var blocks: seq<ContentBlock>
    var textBuf: string
    var thinkingBuf: string
    var pendingSignature: Option<string>
    var started: bool

    function Model(): Acc
      reads this
    {
      Acc(model, toolUses, blocks, textBuf, thinkingBuf, pendingSignature, started)
    }

    constructor ()
      ensures Model() == EMPTY
    {
      model, toolUses, blocks, textBuf, thinkingBuf, pendingSignature, started := "", [], [], "", "", None, false;
    }

    method FlushTextBuffer()
      modifies this
      ensures Model() == FlushText(old(Model()))
    {
      if textBuf != "" {
        blocks := blocks + [TextBlock(textBuf)];
        textBuf := "";
      }
    }

    method FlushThinkingBuffer()
      modifies this
      ensures Model() == FlushThinking(old(Model()))
    {
      if thinkingBuf != "" {
        blocks := blocks + [ThinkingBlock(thinkingBuf, pendingSignature)];
        thinkingBuf := "";
        pendingSignature := None;
      }
    }

    method FinishStream(content: string, finishReason: string, usage: Usage) returns (r: StreamResult)
      modifies this
      ensures r == Finish(old(Model()), content, finishReason, usage)
    {
      FlushTextBuffer();
      FlushThinkingBuffer();
      r := StreamResult(content, if started then model else "", finishReason, usage, toolUses, blocks);
      toolUses, blocks := [], [];
      if started {
        model := "";
      }
    }

    /** Handles an event that does not end the stream. */
    method Accumulate(e: StreamEvent)
      requires !Terminal(e)
      modifies this
      ensures Model() == Absorb(old(Model()), e)
    {
      match e {
        case Start(m) =>
          model := m;
          started := true;
        case Text(text) =>
          FlushThinkingBuffer();
          textBuf := textBuf + text;
        case Thinking(text) =>
          FlushTextBuffer();
          thinkingBuf := thinkingBuf + text;
        case ThinkingSignature(s) =>
          pendingSignature := Some(s);
        case RedactedThinking(data) =>
          FlushTextBuffer();
          FlushThinkingBuffer();
          blocks := blocks + [RedactedBlock(data)];
        case ToolUse(tool) =>
          FlushTextBuffer();
          FlushThinkingBuffer();
          blocks := blocks + [ToolUseBlock(tool)];
          toolUses := toolUses + [tool];
        case Ping =>
      }
    }
  }

  class StreamConsumer {
    /** The frames sent to the client so far. */
    var sent: seq<Frame>

    constructor ()
      ensures sent == []
    {
      sent := [];
    }

    /** Reads lines until a terminal event, a line that is none or cannot be read, or the end of the stream. */
    method Consume(lines: seq<Line>) returns (r: Result<StreamResult, StreamError>)
      modifies this
      ensures r == Consumed(EMPTY, lines).0
      ensures sent == old(sent) + Consumed(EMPTY, lines).1
      ensures Shows(sent[|old(sent)|..], Heard(lines))
    {
      ShowsHeard(EMPTY, lines);
      var st := new ConsumeState();
      var i := 0;
      while i < |lines|
        invariant 0 <= i <= |lines| && fresh(st)
        invariant Consumed(EMPTY, lines).0 == Consumed(st.Model(), lines[i..]).0
        invariant old(sent) + Consumed(EMPTY, lines).1 == sent + Consumed(st.Model(), lines[i..]).1
      {
        hide Absorb, Finish;
        var line := lines[i];
        assert lines[i..][1..] == lines[i + 1..];
        i := i + 1;
        if line.Unreadable? {
          return Err(ReadFailed);
        }
        if line.Blank? {
          continue;
        }
        if line.Malformed? {
          return Err(Deserialize);
        }
        var e := line.event;
        if e.Done? {
          var result := st.FinishStream(e.content, e.finishReason, e.usage);
          return Ok(result);
        }
        if e.Error? {
          return Err(StreamErrored(e.message, e.partialUsage));
        }
        ghost var rest := Consumed(Absorb(st.Model(), e), lines[i..]).1;
        assert sent + (FramesOf(e) + rest) == (sent + FramesOf(e)) + rest;
        sent := sent + FramesOf(e);
        st.Accumulate(e);
      }
      return Err(IncompleteStream);
    }
  }

  // ----- pings are invisible -----

  predicate IsPing(line: Line) {
    line == Event(Ping)
  }

  function WithoutPings(lines: seq<Line>): seq<Line> {
    if lines == [] then []
    else (if IsPing(lines[0]) then [] else [lines[0]]) + WithoutPings(lines[1..])
  }

  /** Heartbeats change neither the result nor what the client sees, wherever they fall. */
  lemma {:induction false} PingsAreIgnored(a: Acc, lines: seq<Line>)
    ensures Consumed(a, lines) == Consumed(a, WithoutPings(lines))
    decreases |lines|
  {
    hide Finish;
    if lines != [] {
      var rest := lines[1..];
      if IsPing(lines[0]) {
        PingsAreIgnored(a, rest);
        assert [] + WithoutPings(rest) == WithoutPings(rest);
        assert FramesOf(Ping) + Consumed(a, rest).1 == Consumed(a, rest).1;
      } else {
        assert WithoutPings(lines)[1..] == WithoutPings(rest);
        PingsAreIgnored(a, rest);
        if lines[0].Event? { PingsAreIgnored(Absorb(a, lines[0].event), rest); }
      }
    }
  }

  predicate NoTerminal(lines: seq<Line>) {
    forall i :: 0 <= i < |lines| && lines[i].Event? ==> !Terminal(lines[i].event)
  }

  /** A stream of proper events is incomplete exactly when it holds no terminal event. */
  lemma {:induction false} IncompleteIffNoTerminal(a: Acc, lines: seq<Line>)
    requires forall i :: 0 <= i < |lines| ==> !lines[i].Malformed? && !lines[i].Unreadable?
    ensures Consumed(a, lines).0 == Err(IncompleteStream) <==> NoTerminal(lines)
    decreases |lines|
  {
    hide Finish, Absorb;
    if lines != [] {
      var a' := if lines[0].Event? then Absorb(a, lines[0].event) else a;
      IncompleteIffNoTerminal(a', lines[1..]);
      assert lines == [lines[0]] + lines[1..];
    }
  }
}
