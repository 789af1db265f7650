/**
 * What the consumer rebuilds from a stream. Blocks broken up into events in any way come back,
 * up to the merging of neighbours of one kind; and from events in any order nothing is lost.
 */
module StreamRoundTrip {
  import opened Common
  import opened Stream

  /** The accumulator after a list of events that do not end the stream. */
  function Fold(a: Acc, es: seq<StreamEvent>): Acc {
    if es == [] then a else Absorb(Fold(a, es[..|es| - 1]), es[|es| - 1])
  }

  /** The blocks delivered if the stream ended now. */
  function Rebuilt(es: seq<StreamEvent>): seq<ContentBlock> {
    Flush(Fold(EMPTY, es)).blocks
  }

  lemma {:induction false} FoldConcat(a: Acc, es: seq<StreamEvent>, more: seq<StreamEvent>)
    ensures Fold(a, es + more) == Fold(Fold(a, es), more)
  {
    hide Absorb;
    if more == [] {
      assert es + more == es;
    } else {
      assert (es + more)[..|es + more| - 1] == es + more[..|more| - 1];
      FoldConcat(a, es, more[..|more| - 1]);
    }
  }

  /** The fold is what the consumer delivers when a terminal event follows. */
  lemma {:induction false} ConsumedIsFold(a: Acc, es: seq<StreamEvent>, done: StreamEvent, lines: seq<Line>)
    requires done.Done? && forall i :: 0 <= i < |es| ==> !Terminal(es[i])
    requires |lines| == |es| + 1 && lines[|es|] == Event(done)
    requires forall i :: 0 <= i < |es| ==> lines[i] == Event(es[i])
    ensures Consumed(a, lines).0 == Ok(Finish(Fold(a, es), done.content, done.finishReason, done.usage))
    decreases |es|
  {
    hide Absorb, Finish;
    if es != [] {
      FoldConcat(a, [es[0]], es[1..]);
      assert [es[0]] + es[1..] == es;
      assert [es[0]][..0] == [];
      assert Fold(a, [es[0]]) == Absorb(a, es[0]);
      ConsumedIsFold(Absorb(a, es[0]), es[1..], done, lines[1..]);
    }
  }

  // ----- blocks broken up into events -----

  function TextsOf(es: seq<StreamEvent>): string {
    if es == [] then ""
    else TextsOf(es[..|es| - 1]) + if es[|es| - 1].Text? then es[|es| - 1].text else ""
  }

  function ThoughtsOf(es: seq<StreamEvent>): string {
    if es == [] then ""
    else ThoughtsOf(es[..|es| - 1]) + if es[|es| - 1].Thinking? then es[|es| - 1].text else ""
  }

  function LastSignature(es: seq<StreamEvent>): Option<string> {
    if es == [] then None
    else if es[|es| - 1].ThinkingSignature? then Some(es[|es| - 1].signature)
    else LastSignature(es[..|es| - 1])
  }

  predicate OnlyText(es: seq<StreamEvent>) {
    forall i :: 0 <= i < |es| ==> es[i].Text?
  }

  predicate OnlyThinking(es: seq<StreamEvent>) {
    forall i :: 0 <= i < |es| ==> es[i].Thinking? || es[i].ThinkingSignature?
  }

  /**
   * The events announce the block: its text in any chunks, its thinking in any chunks with
   * the signature anywhere among them, or one event for the other kinds. A consumer never
   * announces an empty text or thinking block or a tool result.
   */
  predicate Announces(es: seq<StreamEvent>, b: ContentBlock) {
    match b
    case TextBlock(t) => t != "" && OnlyText(es) && TextsOf(es) == t
    case ThinkingBlock(t, signature) =>
      t != "" && OnlyThinking(es) && ThoughtsOf(es) == t && LastSignature(es) == signature
    case ToolUseBlock(tool) => es == [ToolUse(tool)]
    case RedactedBlock(data) => es == [RedactedThinking(data)]
    case ToolResultBlock(_, _, _) => false
  }

  predicate AllAnnounced(chunks: seq<seq<StreamEvent>>, bs: seq<ContentBlock>) {
    |chunks| == |bs| && forall i :: 0 <= i < |bs| ==> Announces(chunks[i], bs[i])
  }

  function Flatten(chunks: seq<seq<StreamEvent>>): seq<StreamEvent> {
    if chunks == [] then [] else Flatten(chunks[..|chunks| - 1]) + chunks[|chunks| - 1]
  }

  /** Two blocks that the stream gives no means to tell apart. */
  predicate Merge(a: ContentBlock, b: ContentBlock) {
    (a.TextBlock? && b.TextBlock?) || (a.ThinkingBlock? && b.ThinkingBlock?)
  }

  function Merged(a: ContentBlock, b: ContentBlock): ContentBlock
    requires Merge(a, b)
  {
    match a
    case TextBlock(t) => TextBlock(t + b.text)
    case ThinkingBlock(t, signature) => ThinkingBlock(t + b.thinking, b.signature.OrElse(signature))
  }

  function Push(bs: seq<ContentBlock>, b: ContentBlock): seq<ContentBlock> {
    if bs != [] && Merge(bs[|bs| - 1], b) then bs[..|bs| - 1] + [Merged(bs[|bs| - 1], b)] else bs + [b]
  }

  /** Neighbouring text blocks become one, and neighbouring thinking blocks become one. */
  function Coalesce(bs: seq<ContentBlock>): seq<ContentBlock> {
    if bs == [] then [] else Push(Coalesce(bs[..|bs| - 1]), bs[|bs| - 1])
  }

  predicate NoMergingNeighbours(bs: seq<ContentBlock>) {
    forall i :: 0 < i < |bs| ==> !Merge(bs[i - 1], bs[i])
  }

  lemma {:induction false} CoalesceShortens(bs: seq<ContentBlock>)
    ensures |Coalesce(bs)| <= |bs|
    ensures Coalesce(bs) == bs || |Coalesce(bs)| < |bs|
    ensures Coalesce(bs) == bs <==> NoMergingNeighbours(bs)
  {
    hide Merge, Push;
    if bs != [] {
      var front, last := bs[..|bs| - 1], bs[|bs| - 1];
      CoalesceShortens(front);
      NeighboursOfFront(bs);
      PushShortens(Coalesce(front), last);
      assert bs == front + [last];
      hide NoMergingNeighbours;
    }
  }

  lemma PushShortens(bs: seq<ContentBlock>, b: ContentBlock)
    ensures if bs != [] && Merge(bs[|bs| - 1], b) then |Push(bs, b)| == |bs| else Push(bs, b) == bs + [b]
  {
    hide Merge, Merged;
  }

  lemma NeighboursOfFront(bs: seq<ContentBlock>)
    requires bs != []
    ensures NoMergingNeighbours(bs) <==>
      NoMergingNeighbours(bs[..|bs| - 1]) && (|bs| > 1 ==> !Merge(bs[|bs| - 2], bs[|bs| - 1]))
  {
    hide Merge;
    var front := bs[..|bs| - 1];
    if NoMergingNeighbours(front) && (|bs| > 1 ==> !Merge(bs[|bs| - 2], bs[|bs| - 1])) {
      forall i | 0 < i < |bs|
        ensures !Merge(bs[i - 1], bs[i])
      {
        if i < |front| { assert !Merge(front[i - 1], front[i]); }
      }
    }
    if NoMergingNeighbours(bs) {
      forall i | 0 < i < |front|
        ensures !Merge(front[i - 1], front[i])
      {
        assert front[i - 1] == bs[i - 1] && front[i] == bs[i];
      }
    }
  }

  // ----- the accumulator holds the last block back -----

  /** The accumulator has finished all blocks but the last, which it is still collecting. */
  predicate Holds(a: Acc, c: seq<ContentBlock>) {
    if c != [] && c[|c| - 1].TextBlock? then
      a.blocks == c[..|c| - 1] && a.textBuf == c[|c| - 1].text != "" && a.thinkingBuf == "" &&
      a.pendingSignature == None
    else if c != [] && c[|c| - 1].ThinkingBlock? then
      a.blocks == c[..|c| - 1] && a.textBuf == "" && a.thinkingBuf == c[|c| - 1].thinking != "" &&
      a.pendingSignature == c[|c| - 1].signature
    else
      a.blocks == c && a.textBuf == "" && a.thinkingBuf == "" && a.pendingSignature == None
  }

  lemma HoldsFlushed(a: Acc, c: seq<ContentBlock>)
    requires Holds(a, c)
    ensures Flush(a).blocks == c
    ensures Flush(a).textBuf == "" && Flush(a).thinkingBuf == "" && Flush(a).pendingSignature == None
    ensures FlushThinking(a).textBuf == a.textBuf
    ensures c == [] || !c[|c| - 1].TextBlock? ==> FlushThinking(a) == Flush(a)
    ensures FlushText(a).thinkingBuf == a.thinkingBuf
    ensures c == [] || !c[|c| - 1].ThinkingBlock? ==> FlushText(a) == Flush(a)
  {
    if c != [] {
      assert c[..|c| - 1] + [c[|c| - 1]] == c;
    }
  }

  /** While text arrives, one chunk after another. */
  lemma {:induction false} TextArrives(a: Acc, c: seq<ContentBlock>, es: seq<StreamEvent>)
    requires Holds(a, c) && OnlyText(es) && es != []
    ensures var f := Fold(a, es);
            && f.thinkingBuf == "" && f.pendingSignature == None
            && if c != [] && c[|c| - 1].TextBlock?
               then f.blocks == a.blocks && f.textBuf == a.textBuf + TextsOf(es)
               else f.blocks == c && f.textBuf == TextsOf(es)
  {
    var front, e := es[..|es| - 1], es[|es| - 1];
    HoldsFlushed(a, c);
    if front == [] {
      assert Fold(a, front) == a;
      assert TextsOf(es) == e.text by { assert "" + e.text == e.text; }
      assert "" + e.text == e.text;
    } else {
      TextArrives(a, c, front);
      assert a.textBuf + (TextsOf(front) + e.text) == (a.textBuf + TextsOf(front)) + e.text;
    }
  }

  lemma TextAnnounced(a: Acc, c: seq<ContentBlock>, es: seq<StreamEvent>, b: ContentBlock)
    requires Holds(a, c) && b.TextBlock? && Announces(es, b)
    ensures Holds(Fold(a, es), Push(c, b))
  {
    TextArrives(a, c, es);
    hide Fold, TextsOf;
    var p := Push(c, b);
    if c != [] && c[|c| - 1].TextBlock? {
      assert p[..|p| - 1] == c[..|c| - 1];
    } else {
      assert p[..|p| - 1] == c;
    }
  }

  /** While thinking arrives, chunks and signatures. Before the first chunk only the signature shows. */
  lemma {:induction false} ThinkingArrives(a: Acc, c: seq<ContentBlock>, es: seq<StreamEvent>)
    requires Holds(a, c) && OnlyThinking(es)
    ensures var f := Fold(a, es);
            if c != [] && c[|c| - 1].ThinkingBlock? then
              && f.blocks == a.blocks && f.textBuf == "" && f.thinkingBuf == a.thinkingBuf + ThoughtsOf(es)
              && f.pendingSignature == LastSignature(es).OrElse(a.pendingSignature)
            else
              && f.pendingSignature == LastSignature(es)
              && f.thinkingBuf == ThoughtsOf(es)
              && (if exists i :: 0 <= i < |es| && es[i].Thinking?
                  then f.blocks == c && f.textBuf == ""
                  else f == a.(pendingSignature := LastSignature(es)))
  {
    if es != [] {
      var front, e := es[..|es| - 1], es[|es| - 1];
      assert es == front + [e];
      ThinkingArrives(a, c, front);
      ThinkingStep(a, c, front, e);
    } else {
      assert a.thinkingBuf + "" == a.thinkingBuf;
    }
  }

  lemma ThinkingStep(a: Acc, c: seq<ContentBlock>, front: seq<StreamEvent>, e: StreamEvent)
    requires Holds(a, c) && OnlyThinking(front + [e])
    requires var f := Fold(a, front);
             if c != [] && c[|c| - 1].ThinkingBlock? then
               && f.blocks == a.blocks && f.textBuf == "" && f.thinkingBuf == a.thinkingBuf + ThoughtsOf(front)
               && f.pendingSignature == LastSignature(front).OrElse(a.pendingSignature)
             else
               && f.pendingSignature == LastSignature(front)
               && f.thinkingBuf == ThoughtsOf(front)
               && (if exists i :: 0 <= i < |front| && front[i].Thinking?
                   then f.blocks == c && f.textBuf == ""
                   else f == a.(pendingSignature := LastSignature(front)))
    ensures var es := front + [e];
            var f := Absorb(Fold(a, front), e);
            if c != [] && c[|c| - 1].ThinkingBlock? then
              && f.blocks == a.blocks && f.textBuf == "" && f.thinkingBuf == a.thinkingBuf + ThoughtsOf(es)
              && f.pendingSignature == LastSignature(es).OrElse(a.pendingSignature)
            else
              && f.pendingSignature == LastSignature(es)
              && f.thinkingBuf == ThoughtsOf(es)
              && (if exists i :: 0 <= i < |es| && es[i].Thinking?
                  then f.blocks == c && f.textBuf == ""
                  else f == a.(pendingSignature := LastSignature(es)))
  {
    var es := front + [e];
    assert es[..|es| - 1] == front;
    assert es[|front|] == e;
    assert e.Thinking? || e.ThinkingSignature?;
    assert (exists i :: 0 <= i < |es| && es[i].Thinking?) <==>
           e.Thinking? || exists i :: 0 <= i < |front| && front[i].Thinking? by {
      assert forall i :: 0 <= i < |front| ==> es[i] == front[i];
    }
    HoldsFlushed(a, c);
    if e.Thinking? {
      assert a.thinkingBuf + (ThoughtsOf(front) + e.text) == (a.thinkingBuf + ThoughtsOf(front)) + e.text;
    }
  }

  lemma {:induction false} NoThoughts(es: seq<StreamEvent>)
    requires forall i :: 0 <= i < |es| ==> !es[i].Thinking?
    ensures ThoughtsOf(es) == ""
  {
    if es != [] { NoThoughts(es[..|es| - 1]); }
  }

  lemma ThinkingAnnounced(a: Acc, c: seq<ContentBlock>, es: seq<StreamEvent>, b: ContentBlock)
    requires Holds(a, c) && b.ThinkingBlock? && Announces(es, b)
    ensures Holds(Fold(a, es), Push(c, b))
  {
    ThinkingArrives(a, c, es);
    if !exists i :: 0 <= i < |es| && es[i].Thinking? { NoThoughts(es); }
    hide Fold, ThoughtsOf, LastSignature;
    var p := Push(c, b);
    if c != [] && c[|c| - 1].ThinkingBlock? {
      assert p[..|p| - 1] == c[..|c| - 1];
    } else {
      assert p[..|p| - 1] == c;
    }
  }

  lemma OneEventAnnounced(a: Acc, c: seq<ContentBlock>, es: seq<StreamEvent>, b: ContentBlock)
    requires Holds(a, c) && (b.ToolUseBlock? || b.RedactedBlock?) && Announces(es, b)
    ensures Holds(Fold(a, es), Push(c, b))
  {
    assert es[..0] == [];
    assert Fold(a, es) == Absorb(a, es[0]);
    HoldsFlushed(a, c);
  }

  lemma BlockAnnounced(a: Acc, c: seq<ContentBlock>, es: seq<StreamEvent>, b: ContentBlock)
    requires Holds(a, c) && Announces(es, b)
    ensures Holds(Fold(a, es), Push(c, b))
  {
    hide Holds, Announces, Push, Fold;
    match b
    case TextBlock(_) => TextAnnounced(a, c, es, b);
    case ThinkingBlock(_, _) => ThinkingAnnounced(a, c, es, b);
    case ToolUseBlock(_) => OneEventAnnounced(a, c, es, b);
    case RedactedBlock(_) => OneEventAnnounced(a, c, es, b);
    case ToolResultBlock(_, _, _) => ToolResultsAreNotAnnounced(es, b);
  }

  lemma {:induction false} HoldsCoalesced(start: Acc, chunks: seq<seq<StreamEvent>>, bs: seq<ContentBlock>)
    requires Holds(start, []) && AllAnnounced(chunks, bs)
    ensures Holds(Fold(start, Flatten(chunks)), Coalesce(bs))
  {
    hide Holds, Announces, Push;
    if bs != [] {
      var n := |bs| - 1;
      HoldsCoalesced(start, chunks[..n], bs[..n]);
      FoldConcat(start, Flatten(chunks[..n]), chunks[n]);
      hide Fold;
      BlockAnnounced(Fold(start, Flatten(chunks[..n])), Coalesce(bs[..n]), chunks[n], bs[n]);
    }
  }

  lemma ToolResultsAreNotAnnounced(es: seq<StreamEvent>, b: ContentBlock)
    requires b.ToolResultBlock?
    ensures !Announces(es, b)
  {
  }

  /** What opens a stream, if anything does: events that name the model. */
  predicate Opens(es: seq<StreamEvent>) {
    forall i :: 0 <= i < |es| ==> es[i].Start?
  }

  lemma {:induction false} OpeningHoldsNothing(es: seq<StreamEvent>)
    requires Opens(es)
    ensures var a := Fold(EMPTY, es);
            && Holds(a, [])
            && a.started == (es != []) && (es != [] ==> a.model == es[|es| - 1].model)
  {
    if es != [] {
      OpeningHoldsNothing(es[..|es| - 1]);
    }
  }

  /**
   * Blocks announced by events in any chunking, after an opening, are rebuilt, with neighbours
   * of one kind merged. They come back exactly as they were if and only if there are no such
   * neighbours.
   */
  lemma RoundTrip(opening: seq<StreamEvent>, chunks: seq<seq<StreamEvent>>, bs: seq<ContentBlock>)
    requires Opens(opening) && AllAnnounced(chunks, bs)
    ensures Rebuilt(opening + Flatten(chunks)) == Coalesce(bs)
    ensures Rebuilt(opening + Flatten(chunks)) == bs <==> NoMergingNeighbours(bs)
  {
    var start := Fold(EMPTY, opening);
    OpeningHoldsNothing(opening);
    FoldConcat(EMPTY, opening, Flatten(chunks));
    HoldsCoalesced(start, chunks, bs);
    HoldsFlushed(Fold(start, Flatten(chunks)), Coalesce(bs));
    CoalesceShortens(bs);
  }

  /** The model named at the opening is the one delivered. */
  lemma {:induction false} ModelStays(a: Acc, es: seq<StreamEvent>)
    requires forall i :: 0 <= i < |es| ==> !es[i].Start?
    ensures Fold(a, es).model == a.model && Fold(a, es).started == a.started
  {
    if es != [] {
      ModelStays(a, es[..|es| - 1]);
    }
  }

  // ----- arbitrary events -----

  /** The smallest pieces of content, in the order they were produced. */
  datatype Atom = Spoken(c: char) | Thought(c: char) | Called(tool: ToolCall) | Redacted(data: string)

  function Spell(s: string): (r: seq<Atom>)
    ensures |r| == |s|
  {
    seq(|s|, i requires 0 <= i < |s| => Spoken(s[i]))
  }

  function Think(s: string): (r: seq<Atom>)
    ensures |r| == |s|
  {
    seq(|s|, i requires 0 <= i < |s| => Thought(s[i]))
  }

  function BlockAtoms(b: ContentBlock): seq<Atom> {
    match b
    case TextBlock(t) => Spell(t)
    case ThinkingBlock(t, _) => Think(t)
    case ToolUseBlock(tool) => [Called(tool)]
    case RedactedBlock(data) => [Redacted(data)]
    case ToolResultBlock(_, _, _) => []
  }

  function EventAtoms(e: StreamEvent): seq<Atom> {
    match e
    case Text(t) => Spell(t)
    case Thinking(t) => Think(t)
    case ToolUse(tool) => [Called(tool)]
    case RedactedThinking(data) => [Redacted(data)]
    case _ => []
  }

  function AtomsOfBlocks(bs: seq<ContentBlock>): seq<Atom> {
    if bs == [] then [] else AtomsOfBlocks(bs[..|bs| - 1]) + BlockAtoms(bs[|bs| - 1])
  }

  function AtomsOfEvents(es: seq<StreamEvent>): seq<Atom> {
    if es == [] then [] else AtomsOfEvents(es[..|es| - 1]) + EventAtoms(es[|es| - 1])
  }

  /** The tool calls among a list of blocks. */
  function ExtractToolUses(bs: seq<ContentBlock>): seq<ToolCall> {
    if bs == [] then []
    else ExtractToolUses(bs[..|bs| - 1]) + if bs[|bs| - 1].ToolUseBlock? then [bs[|bs| - 1].tool] else []
  }

  /** All content received, finished or buffered. */
  function Content(a: Acc): seq<Atom> {
    AtomsOfBlocks(a.blocks) + Spell(a.textBuf) + Think(a.thinkingBuf)
  }

  predicate Consistent(a: Acc) {
    (a.textBuf == "" || a.thinkingBuf == "") && a.toolUses == ExtractToolUses(a.blocks)
  }

  lemma AppendBlock(bs: seq<ContentBlock>, b: ContentBlock)
    ensures AtomsOfBlocks(bs + [b]) == AtomsOfBlocks(bs) + BlockAtoms(b)
    ensures ExtractToolUses(bs + [b]) == ExtractToolUses(bs) + if b.ToolUseBlock? then [b.tool] else []
  {
    assert (bs + [b])[..|bs|] == bs;
  }

  lemma FlushKeepsContent(a: Acc)
    requires Consistent(a)
    ensures Consistent(Flush(a)) && Content(Flush(a)) == Content(a) == AtomsOfBlocks(Flush(a).blocks)
    ensures Consistent(FlushText(a)) && Content(FlushText(a)) == Content(a)
    ensures Consistent(FlushThinking(a)) && Content(FlushThinking(a)) == Content(a)
  {
    hide AtomsOfBlocks, ExtractToolUses;
    if a.textBuf != "" {
      AppendBlock(a.blocks, TextBlock(a.textBuf));
    }
    if a.thinkingBuf != "" {
      AppendBlock(a.blocks, ThinkingBlock(a.thinkingBuf, a.pendingSignature));
    }
  }

  lemma AddText(f: Acc, t: string)
    requires Consistent(f) && f.thinkingBuf == ""
    ensures var g := f.(textBuf := f.textBuf + t); Consistent(g) && Content(g) == Content(f) + Spell(t)
  {
    hide AtomsOfBlocks, ExtractToolUses;
    assert Spell(f.textBuf + t) == Spell(f.textBuf) + Spell(t);
  }

  lemma AddThinking(f: Acc, t: string)
    requires Consistent(f) && f.textBuf == ""
    ensures var g := f.(thinkingBuf := f.thinkingBuf + t); Consistent(g) && Content(g) == Content(f) + Think(t)
  {
    hide AtomsOfBlocks, ExtractToolUses;
    assert Think(f.thinkingBuf + t) == Think(f.thinkingBuf) + Think(t);
  }

  lemma AddBlock(f: Acc, b: ContentBlock)
    requires Consistent(f) && f.textBuf == "" && f.thinkingBuf == ""
    ensures var g := f.(blocks := f.blocks + [b], toolUses := f.toolUses + if b.ToolUseBlock? then [b.tool] else []);
            Consistent(g) && Content(g) == Content(f) + BlockAtoms(b)
  {
    AppendBlock(f.blocks, b);
    hide AtomsOfBlocks, ExtractToolUses, BlockAtoms;
    assert Spell("") == [] && Think("") == [];
  }

  lemma FlushEmpties(a: Acc)
    ensures FlushText(a).textBuf == "" && FlushThinking(a).thinkingBuf == ""
    ensures Flush(a).textBuf == "" && Flush(a).thinkingBuf == ""
  {
  }

  lemma SilentKeepsContent(a: Acc, e: StreamEvent)
    requires Consistent(a) && EventAtoms(e) == [] && !e.Text? && !e.Thinking?
    ensures Consistent(Absorb(a, e)) && Content(Absorb(a, e)) == Content(a)
  {
    hide AtomsOfBlocks, ExtractToolUses;
  }

  lemma AbsorbKeepsContent(a: Acc, e: StreamEvent)
    requires Consistent(a)
    ensures Consistent(Absorb(a, e)) && Content(Absorb(a, e)) == Content(a) + EventAtoms(e)
  {
    hide Consistent, Content, FlushText, FlushThinking, Flush, BlockAtoms;
    match e
    case Text(t) =>
      FlushKeepsContent(a);
      FlushEmpties(a);
      AddText(FlushThinking(a), t);
    case Thinking(t) =>
      FlushKeepsContent(a);
      FlushEmpties(a);
      AddThinking(FlushText(a), t);
    case RedactedThinking(data) => BlockKeepsContent(a, e, RedactedBlock(data));
    case ToolUse(tool) => BlockKeepsContent(a, e, ToolUseBlock(tool));
    case _ =>
      SilentKeepsContent(a, e);
      assert Content(a) + [] == Content(a);
  }

  lemma BlockKeepsContent(a: Acc, e: StreamEvent, b: ContentBlock)
    requires Consistent(a)
    requires (e.ToolUse? && b == ToolUseBlock(e.tool)) || (e.RedactedThinking? && b == RedactedBlock(e.data))
    ensures Consistent(Absorb(a, e)) && Content(Absorb(a, e)) == Content(a) + EventAtoms(e)
  {
    var f := Flush(a);
    FlushKeepsContent(a);
    FlushEmpties(a);
    AddBlock(f, b);
    hide Consistent, Content, Flush;
    assert f.toolUses + [] == f.toolUses;
    assert Absorb(a, e) ==
           f.(blocks := f.blocks + [b], toolUses := f.toolUses + if b.ToolUseBlock? then [b.tool] else []);
  }

  lemma {:induction false} FoldKeepsContent(es: seq<StreamEvent>)
    ensures Consistent(Fold(EMPTY, es)) && Content(Fold(EMPTY, es)) == AtomsOfEvents(es)
  {
    hide Absorb, Consistent, Content;
    if es == [] {
      assert Consistent(EMPTY) && Content(EMPTY) == [] by { EmptyContent(); }
    } else {
      FoldKeepsContent(es[..|es| - 1]);
      AbsorbKeepsContent(Fold(EMPTY, es[..|es| - 1]), es[|es| - 1]);
    }
  }

  lemma EmptyContent()
    ensures Consistent(EMPTY) && Content(EMPTY) == []
  {
  }

  /**
   * Nothing is lost or reordered: from any events whatever, the blocks spell out the same
   * text, thinking, tool calls and redacted data in the same order, and the tool calls handed
   * to the tool loop are those of the blocks.
   */
  lemma ContentIsConserved(es: seq<StreamEvent>)
    ensures AtomsOfBlocks(Rebuilt(es)) == AtomsOfEvents(es)
    ensures Finish(Fold(EMPTY, es), "", "", Usage(0, 0, 0, 0)).toolUses == ExtractToolUses(Rebuilt(es))
  {
    FoldKeepsContent(es);
    FlushKeepsContent(Fold(EMPTY, es));
  }

  /** But block boundaries are not conserved: an empty thinking delta splits a text in two. */
  lemma EmptyDeltaSplitsText()
    ensures Rebuilt([Text("a"), Thinking(""), Text("b")]) == [TextBlock("a"), TextBlock("b")]
    ensures Rebuilt([Text("a"), Text("b")]) == [TextBlock("ab")]
  {
    var es := [Text("a"), Thinking(""), Text("b")];
    assert es[..2] == [Text("a"), Thinking("")] && es[..2][..1] == [Text("a")] && es[..2][..1][..0] == [];
    assert "" + "a" == "a" && "" + "" == "" && "" + "b" == "b" && "a" + "b" == "ab";
    assert Fold(EMPTY, [Text("a")]) == EMPTY.(textBuf := "a");
    var split := EMPTY.(blocks := [TextBlock("a")]);
    assert Fold(EMPTY, [Text("a"), Thinking("")]) == split;
    assert Fold(EMPTY, es) == split.(textBuf := "b");
    var fs := [Text("a"), Text("b")];
    assert fs[..1] == [Text("a")];
    assert Fold(EMPTY, fs) == EMPTY.(textBuf := "ab");
  }
}
