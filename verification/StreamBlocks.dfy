/**
 * The blocks that an arbitrary list of events stands for, said without the consumer's
 * buffers: deltas of one kind form runs, and the runs that are not empty are the blocks.
 */
module StreamBlocks {
  import opened Common
  import opened SidecarPump
  import opened Stream
  import opened StreamRoundTrip

  /** What a run is made of. Everything before the first content is the opening. */
  datatype Kind = Opening | Said | Pondered | Tool(tool: ToolCall) | Hidden(data: string)

  /** A maximal run: the text of its deltas, and the last signature since its first event. */
  datatype Run = Run(kind: Kind, text: string, signature: Option<string>)

  function Last<T>(s: seq<T>): T
    requires s != []
  {
    s[|s| - 1]
  }

  function Front<T>(s: seq<T>): seq<T>
    requires s != []
  {
    s[..|s| - 1]
  }

  /** A delta continues the run of its kind or begins another, even if it is empty. */
  function Grow(rs: seq<Run>, kind: Kind, text: string): (r: seq<Run>)
    requires rs != []
    ensures r != []
  {
    if Last(rs).kind == kind then Front(rs) + [Last(rs).(text := Last(rs).text + text)]
    else rs + [Run(kind, text, None)]
  }

  function Extend(rs: seq<Run>, e: StreamEvent): (r: seq<Run>)
    requires rs != []
    ensures r != []
  {
    match e
    case Text(t) => Grow(rs, Said, t)
    case Thinking(t) => Grow(rs, Pondered, t)
    case ThinkingSignature(s) => Front(rs) + [Last(rs).(signature := Some(s))]
    case RedactedThinking(data) => rs + [Run(Hidden(data), "", None)]
    case ToolUse(tool) => rs + [Run(Tool(tool), "", None)]
    case _ => rs
  }

  function Runs(es: seq<StreamEvent>): (rs: seq<Run>)
    ensures rs != []
  {
    if es == [] then [Run(Opening, "", None)] else Extend(Runs(Front(es)), Last(es))
  }

  /** The block of a run, or nothing if the run is empty. */
  function BlockOf(r: Run, signature: Option<string>): seq<ContentBlock> {
    match r.kind
    case Opening => []
    case Said => if r.text == "" then [] else [TextBlock(r.text)]
    case Pondered => if r.text == "" then [] else [ThinkingBlock(r.text, signature)]
    case Tool(tool) => [ToolUseBlock(tool)]
    case Hidden(data) => [RedactedBlock(data)]
  }

  /**
   * The blocks of the runs, without the empty ones, and the signature not used yet. A
   * thinking block takes the latest signature since the thinking block before it.
   */
  function Blocks(rs: seq<Run>): (seq<ContentBlock>, Option<string>) {
    if rs == [] then ([], None)
    else
      var (bs, carried) := Blocks(Front(rs));
      var r := Last(rs);
      var signature := r.signature.OrElse(carried);
      (bs + BlockOf(r, signature), if r.kind.Pondered? && r.text != "" then None else signature)
  }

  /** A tool call or redacted data is a block as soon as it arrives. */
  function Whole(r: Run): seq<ContentBlock> {
    match r.kind
    case Tool(tool) => [ToolUseBlock(tool)]
    case Hidden(data) => [RedactedBlock(data)]
    case _ => []
  }

  /** The accumulator holds the finished runs as blocks and the last run in its buffers. */
  predicate Holds(a: Acc, done: (seq<ContentBlock>, Option<string>), r: Run) {
    && a.blocks == done.0 + Whole(r)
    && a.textBuf == (if r.kind.Said? then r.text else "")
    && a.thinkingBuf == (if r.kind.Pondered? then r.text else "")
    && a.pendingSignature == r.signature.OrElse(done.1)
  }

  predicate Matches(a: Acc, rs: seq<Run>)
    requires rs != []
  {
    Holds(a, Blocks(Front(rs)), Last(rs))
  }

  lemma MatchesFlushed(a: Acc, rs: seq<Run>)
    requires rs != [] && Matches(a, rs)
    ensures Flush(a).blocks == Blocks(rs).0 && Flush(a).pendingSignature == Blocks(rs).1
    ensures Flush(a).textBuf == "" && Flush(a).thinkingBuf == ""
    ensures !Last(rs).kind.Said? ==> FlushThinking(a) == Flush(a)
    ensures !Last(rs).kind.Pondered? ==> FlushText(a) == Flush(a)
    ensures Last(rs).kind.Said? ==> FlushThinking(a) == a
    ensures Last(rs).kind.Pondered? ==> FlushText(a) == a
  {
    var done := Blocks(Front(rs));
    assert Blocks(rs).0 == done.0 + BlockOf(Last(rs), Last(rs).signature.OrElse(done.1));
    assert done.0 + [] == done.0;
    hide Blocks;
  }

  lemma RunBegins(f: Acc, rs: seq<Run>, r: Run)
    requires rs != [] && Holds(f, Blocks(rs), r)
    ensures Matches(f, rs + [r])
  {
    assert Front(rs + [r]) == rs;
    hide Blocks;
  }

  lemma RunGrows(a: Acc, rs: seq<Run>, r: Run)
    requires rs != [] && Holds(a, Blocks(Front(rs)), r)
    ensures Matches(a, Front(rs) + [r])
  {
    assert Front(Front(rs) + [r]) == Front(rs);
    hide Blocks;
  }

  lemma MatchesText(a: Acc, rs: seq<Run>, t: string)
    requires rs != [] && Matches(a, rs)
    ensures Matches(Absorb(a, Text(t)), Extend(rs, Text(t)))
  {
    MatchesFlushed(a, rs);
    hide Blocks, Flush, FlushText, FlushThinking;
    var r, a' := Last(rs), Absorb(a, Text(t));
    assert "" + t == t && Blocks(rs).0 + [] == Blocks(rs).0;
    if r.kind == Said {
      RunGrows(a', rs, r.(text := r.text + t));
    } else {
      RunBegins(a', rs, Run(Said, t, None));
    }
  }

  lemma MatchesThinking(a: Acc, rs: seq<Run>, t: string)
    requires rs != [] && Matches(a, rs)
    ensures Matches(Absorb(a, Thinking(t)), Extend(rs, Thinking(t)))
  {
    MatchesFlushed(a, rs);
    hide Blocks, Flush, FlushText, FlushThinking;
    var r, a' := Last(rs), Absorb(a, Thinking(t));
    assert "" + t == t && Blocks(rs).0 + [] == Blocks(rs).0;
    if r.kind == Pondered {
      RunGrows(a', rs, r.(text := r.text + t));
    } else {
      RunBegins(a', rs, Run(Pondered, t, None));
    }
  }

  lemma MatchesWhole(a: Acc, rs: seq<Run>, e: StreamEvent, r: Run)
    requires rs != [] && Matches(a, rs) && r.text == "" && r.signature == None
    requires (e.ToolUse? && r.kind == Tool(e.tool)) || (e.RedactedThinking? && r.kind == Hidden(e.data))
    ensures Matches(Absorb(a, e), rs + [r])
  {
    MatchesFlushed(a, rs);
    hide Blocks, Flush;
    RunBegins(Absorb(a, e), rs, r);
  }

  lemma MatchesNext(a: Acc, rs: seq<Run>, e: StreamEvent)
    requires rs != [] && Matches(a, rs)
    ensures Matches(Absorb(a, e), Extend(rs, e))
  {
    hide Blocks, Flush, FlushText, FlushThinking;
    match e
    case Text(t) => MatchesText(a, rs, t);
    case Thinking(t) => MatchesThinking(a, rs, t);
    case ThinkingSignature(s) => RunGrows(Absorb(a, e), rs, Last(rs).(signature := Some(s)));
    case RedactedThinking(data) => MatchesWhole(a, rs, e, Run(Hidden(data), "", None));
    case ToolUse(tool) => MatchesWhole(a, rs, e, Run(Tool(tool), "", None));
    case _ =>
  }

  lemma {:induction false} MatchesAll(es: seq<StreamEvent>)
    ensures Matches(Fold(EMPTY, es), Runs(es))
  {
    if es == [] {
      assert Front([Run(Opening, "", None)]) == [];
      assert EMPTY.blocks == [] + [];
    } else {
      MatchesAll(Front(es));
      MatchesNext(Fold(EMPTY, Front(es)), Runs(Front(es)), Last(es));
      hide Matches, Absorb, Extend;
    }
  }

  /** From any events whatever, the blocks rebuilt are those of the runs, signatures included. */
  lemma RebuiltIsBlocks(es: seq<StreamEvent>)
    ensures Rebuilt(es) == Blocks(Runs(es)).0
  {
    MatchesAll(es);
    MatchesFlushed(Fold(EMPTY, es), Runs(es));
  }

  // ----- when empty deltas matter -----

  predicate IsDelta(e: StreamEvent) {
    e.Text? || e.Thinking?
  }

  predicate IsEmptyDelta(e: StreamEvent) {
    IsDelta(e) && e.text == ""
  }

  /** A delta that is not empty, a tool call, or redacted data. */
  predicate IsContent(e: StreamEvent) {
    (IsDelta(e) && e.text != "") || e.ToolUse? || e.RedactedThinking?
  }

  predicate SameKind(a: StreamEvent, b: StreamEvent) {
    (a.Text? && b.Text?) || (a.Thinking? && b.Thinking?)
  }

  function WithoutEmptyDeltas(es: seq<StreamEvent>): seq<StreamEvent> {
    if es == [] then [] else WithoutEmptyDeltas(Front(es)) + if IsEmptyDelta(Last(es)) then [] else [Last(es)]
  }

  function LastContent(es: seq<StreamEvent>): (i: Option<nat>)
    ensures i.Some? ==> i.value < |es| && IsContent(es[i.value])
    ensures i.Some? ==> forall j :: i.value < j < |es| ==> !IsContent(es[j])
    ensures i.None? ==> forall j :: 0 <= j < |es| ==> !IsContent(es[j])
  {
    if es == [] then None else if IsContent(Last(es)) then Some(|es| - 1) else LastContent(Front(es))
  }

  /** After position `i` comes an empty delta of the other kind. */
  predicate Interrupted(es: seq<StreamEvent>, i: nat)
    requires i < |es|
  {
    exists j :: i < j < |es| && IsEmptyDelta(es[j]) && !SameKind(es[j], es[i])
  }

  /**
   * The delta `e` is not empty, the last content before it is one too and of its kind, and an
   * empty one of the other kind is between.
   */
  predicate SplitBefore(es: seq<StreamEvent>, e: StreamEvent) {
    var i := LastContent(es);
    IsDelta(e) && e.text != "" && i.Some? && SameKind(es[i.value], e) && Interrupted(es, i.value)
  }

  /** Somewhere an empty delta separates two deltas of the other kind that are not empty. */
  predicate Splits(es: seq<StreamEvent>) {
    exists k :: 0 <= k < |es| && SplitBefore(es[..k], es[k])
  }

  function PlainBlock(b: ContentBlock): ContentBlock {
    if b.ThinkingBlock? then b.(signature := None) else b
  }

  /** Blocks without regard to signatures. */
  function PlainBlocks(bs: seq<ContentBlock>): seq<ContentBlock> {
    if bs == [] then [] else PlainBlocks(Front(bs)) + [PlainBlock(Last(bs))]
  }

  function PlainRun(r: Run): (p: seq<ContentBlock>)
    ensures |p| <= 1
  {
    BlockOf(r, None)
  }

  function PlainRuns(rs: seq<Run>): seq<ContentBlock> {
    if rs == [] then [] else PlainRuns(Front(rs)) + PlainRun(Last(rs))
  }

  lemma PlainSnoc(bs: seq<ContentBlock>, b: ContentBlock)
    ensures PlainBlocks(bs + [b]) == PlainBlocks(bs) + [PlainBlock(b)]
  {
    assert Front(bs + [b]) == bs;
  }

  lemma {:induction false} PlainRunsAre(rs: seq<Run>)
    ensures PlainBlocks(Blocks(rs).0) == PlainRuns(rs)
  {
    if rs != [] {
      var done, r := Blocks(Front(rs)), Last(rs);
      var part := BlockOf(r, r.signature.OrElse(done.1));
      PlainRunsAre(Front(rs));
      assert Blocks(rs).0 == done.0 + part;
      hide Blocks, PlainBlocks;
      if part == [] {
        assert done.0 + part == done.0;
        assert PlainRuns(Front(rs)) + [] == PlainRuns(Front(rs));
      } else {
        assert part == [part[0]] && PlainRun(r) == [PlainBlock(part[0])];
        PlainSnoc(done.0, part[0]);
      }
    }
  }

  /** The block that one content event makes on its own. */
  function Piece(e: StreamEvent): ContentBlock
    requires IsContent(e)
  {
    match e
    case Text(t) => TextBlock(t)
    case Thinking(t) => ThinkingBlock(t, None)
    case ToolUse(tool) => ToolUseBlock(tool)
    case RedactedThinking(data) => RedactedBlock(data)
  }

  /** The last run is one that a delta like `e` would continue, and is not empty. */
  predicate Live(rs: seq<Run>, e: StreamEvent)
    requires rs != []
  {
    Last(rs).text != "" && ((e.Text? && Last(rs).kind.Said?) || (e.Thinking? && Last(rs).kind.Pondered?))
  }

  lemma PlainRunsSnoc(rs: seq<Run>, r: Run)
    ensures PlainRuns(rs + [r]) == PlainRuns(rs) + PlainRun(r)
  {
    assert Front(rs + [r]) == rs;
  }

  function DeltaPiece(kind: Kind, text: string): ContentBlock {
    if kind.Said? then TextBlock(text) else ThinkingBlock(text, None)
  }

  lemma RunContinued(r: Run, text: string)
    requires r.kind.Said? || r.kind.Pondered?
    ensures var p, p', piece := PlainRun(r), PlainRun(r.(text := r.text + text)), DeltaPiece(r.kind, text);
            && (text == "" ==> p' == p)
            && (text != "" && r.text == "" ==> p == [] && p' == [piece])
            && (text != "" && r.text != "" ==> |p| == 1 && Merge(p[0], piece) && p' == [Merged(p[0], piece)])
  {
    if text == "" { assert r.text + text == r.text; }
    if r.text == "" { assert r.text + text == text; }
  }

  /** A delta that continues a run, empty or not. */
  lemma PlainContinued(rs: seq<Run>, text: string)
    requires rs != [] && (Last(rs).kind.Said? || Last(rs).kind.Pondered?)
    ensures var p, p', r := PlainRuns(rs), PlainRuns(Grow(rs, Last(rs).kind, text)), Last(rs);
            var piece := DeltaPiece(r.kind, text);
            && (text == "" ==> p' == p)
            && (text != "" && r.text == "" ==> p' == p + [piece])
            && (text != "" && r.text != "" ==>
                  p != [] && Merge(Last(p), piece) && p' == Front(p) + [Merged(Last(p), piece)])
  {
    var r, x := Last(rs), PlainRuns(Front(rs));
    RunContinued(r, text);
    PlainRunsSnoc(Front(rs), r.(text := r.text + text));
    assert PlainRuns(rs) == x + PlainRun(r);
    hide PlainRuns, PlainRun, Merge, Merged, DeltaPiece;
    assert r.text != "" && text != "" ==> Front(x + PlainRun(r)) == x;
    assert x + [] == x;
  }

  lemma PlainBegun(rs: seq<Run>, r: Run)
    ensures PlainRuns(rs + [r]) == PlainRuns(rs) + PlainRun(r)
    ensures PlainRun(r) == [] ==> PlainRuns(rs + [r]) == PlainRuns(rs)
  {
    PlainRunsSnoc(rs, r);
    hide PlainRuns;
    assert PlainRuns(rs) + [] == PlainRuns(rs);
  }

  lemma PlainSigned(rs: seq<Run>, signature: string)
    requires rs != []
    ensures PlainRuns(Front(rs) + [Last(rs).(signature := Some(signature))]) == PlainRuns(rs)
  {
    PlainRunsSnoc(Front(rs), Last(rs).(signature := Some(signature)));
  }

  /** How one more event changes the blocks. */
  lemma PlainStep(rs: seq<Run>, e: StreamEvent)
    requires rs != []
    ensures var p, p' := PlainRuns(rs), PlainRuns(Extend(rs, e));
            && (!IsContent(e) ==> p' == p)
            && (IsContent(e) && !Live(rs, e) ==> p' == p + [Piece(e)])
            && (IsContent(e) && Live(rs, e) ==>
                  p != [] && Merge(Last(p), Piece(e)) && p' == Front(p) + [Merged(Last(p), Piece(e))])
  {
    hide PlainRuns, Merge, Merged;
    match e
    case Text(t) =>
      if Last(rs).kind == Said { PlainContinued(rs, t); } else { PlainBegun(rs, Run(Said, t, None)); }
    case Thinking(t) =>
      if Last(rs).kind == Pondered { PlainContinued(rs, t); } else { PlainBegun(rs, Run(Pondered, t, None)); }
    case ThinkingSignature(s) => PlainSigned(rs, s);
    case RedactedThinking(data) => PlainBegun(rs, Run(Hidden(data), "", None));
    case ToolUse(tool) => PlainBegun(rs, Run(Tool(tool), "", None));
    case _ =>
  }

  lemma MergedTwice(l: ContentBlock, a: ContentBlock, b: ContentBlock)
    requires Merge(l, a) && Merge(a, b)
    ensures Merge(Merged(l, a), b) && Merge(l, Merged(a, b)) && Merged(Merged(l, a), b) == Merged(l, Merged(a, b))
  {
    match a
    case TextBlock(t) => assert (l.text + t) + b.text == l.text + (t + b.text);
    case ThinkingBlock(t, _) => assert (l.thinking + t) + b.thinking == l.thinking + (t + b.thinking);
  }

  lemma MergedAlike(l: ContentBlock, a: ContentBlock, b: ContentBlock)
    requires Merge(a, b)
    ensures Merge(l, Merged(a, b)) <==> Merge(l, a)
  {
  }

  lemma PushTwice(c: seq<ContentBlock>, a: ContentBlock, b: ContentBlock)
    requires Merge(a, b)
    ensures Push(Push(c, a), b) == Push(c, Merged(a, b))
  {
    if c != [] && Merge(Last(c), a) {
      MergedTwice(Last(c), a, b);
      assert Front(Front(c) + [Merged(Last(c), a)]) == Front(c);
    } else {
      if c != [] { MergedAlike(Last(c), a, b); }
      assert (c + [a])[..|c|] == c;
    }
    hide Merge, Merged;
  }

  /** Merging neighbours, each content event pushes its own piece, however the runs were split. */
  lemma CoalescedStep(rs: seq<Run>, e: StreamEvent)
    requires rs != [] && IsContent(e)
    ensures Coalesce(PlainRuns(Extend(rs, e))) == Push(Coalesce(PlainRuns(rs)), Piece(e))
  {
    var p, p' := PlainRuns(rs), PlainRuns(Extend(rs, e));
    PlainStep(rs, e);
    hide PlainRuns, Extend, Merge, Merged, Push;
    assert Front(p') == if Live(rs, e) then Front(p) else p;
    if Live(rs, e) {
      PushTwice(Coalesce(Front(p)), Last(p), Piece(e));
    }
  }

  /** The last run is not empty, unless it is the opening. */
  predicate Solid(rs: seq<Run>)
    requires rs != []
  {
    if Last(rs).kind.Opening? then PlainRuns(rs) == [] else PlainRun(Last(rs)) != []
  }

  /** A block that would merge with the last one continues a run that is not empty. */
  lemma SolidIsLive(rs: seq<Run>, e: StreamEvent)
    requires rs != [] && Solid(rs) && IsContent(e)
    ensures var p := PlainRuns(rs); Live(rs, e) <==> p != [] && Merge(Last(p), Piece(e))
  {
    var p, x := PlainRuns(rs), PlainRuns(Front(rs));
    assert p == x + PlainRun(Last(rs));
    hide PlainRuns;
  }

  lemma SolidNext(rs: seq<Run>, e: StreamEvent)
    requires rs != [] && Solid(rs) && !IsEmptyDelta(e)
    ensures Solid(Extend(rs, e))
  {
    PlainStep(rs, e);
    hide PlainRuns, Merge, Merged;
    if IsDelta(e) { assert Last(rs).text + e.text != "" by { assert e.text != ""; } }
  }

  lemma SolidStep(rs: seq<Run>, e: StreamEvent)
    requires rs != [] && Solid(rs) && !IsEmptyDelta(e)
    ensures Solid(Extend(rs, e))
    ensures PlainRuns(Extend(rs, e)) == if IsContent(e) then Push(PlainRuns(rs), Piece(e)) else PlainRuns(rs)
  {
    SolidNext(rs, e);
    PlainStep(rs, e);
    if IsContent(e) { SolidIsLive(rs, e); }
    hide PlainRuns, Merge, Merged, Solid, Live, Extend;
  }

  /** Leaving out empty deltas merges the blocks they separated, and changes nothing else. */
  lemma {:induction false} WithoutEmptyDeltasMerges(es: seq<StreamEvent>)
    ensures Solid(Runs(WithoutEmptyDeltas(es)))
    ensures PlainRuns(Runs(WithoutEmptyDeltas(es))) == Coalesce(PlainRuns(Runs(es)))
  {
    if es == [] {
      assert PlainRuns([Run(Opening, "", None)]) == [];
    } else {
      var front, e := Front(es), Last(es);
      var rest, all := WithoutEmptyDeltas(front), WithoutEmptyDeltas(es);
      WithoutEmptyDeltasMerges(front);
      assert all == rest + (if IsEmptyDelta(e) then [] else [e]);
      if IsEmptyDelta(e) {
        assert all == rest;
      } else {
        assert Runs(all) == Extend(Runs(rest), e) by { assert Front(all) == rest; }
        SolidStep(Runs(rest), e);
      }
      assert Runs(es) == Extend(Runs(front), e);
      hide PlainRuns, Solid, Extend, Coalesce, Push, Runs, WithoutEmptyDeltas;
      PlainStep(Runs(front), e);
      if IsContent(e) { CoalescedStep(Runs(front), e); }
    }
  }

  /** What the last content event says about the last block and the last run. */
  ghost predicate Tracks(es: seq<StreamEvent>, rs: seq<Run>)
    requires rs != []
  {
    var i, p := LastContent(es), PlainRuns(rs);
    && (i.None? <==> p == [])
    && (i.Some? ==>
          && (es[i.value].Text? <==> Last(p).TextBlock?) && (es[i.value].Thinking? <==> Last(p).ThinkingBlock?)
          && (IsDelta(es[i.value]) ==> (Live(rs, es[i.value]) <==> !Interrupted(es, i.value))))
    && (forall e :: Live(rs, e) ==> i.Some? && SameKind(es[i.value], e))
  }

  lemma InterruptedNext(es: seq<StreamEvent>, i: nat)
    requires es != [] && i < |es| - 1
    ensures Interrupted(es, i) <==> Interrupted(Front(es), i) || (IsEmptyDelta(Last(es)) && !SameKind(Last(es), es[i]))
  {
    var n := |es| - 1;
    if IsEmptyDelta(es[n]) && !SameKind(es[n], es[i]) {
      assert i < n < |es|;
    }
    if Interrupted(Front(es), i) {
      var j :| i < j < n && IsEmptyDelta(Front(es)[j]) && !SameKind(Front(es)[j], es[i]);
      assert es[j] == Front(es)[j];
    }
    if Interrupted(es, i) {
      var j :| i < j < |es| && IsEmptyDelta(es[j]) && !SameKind(es[j], es[i]);
      assert j < n ==> Front(es)[j] == es[j];
    }
  }

  /** Which run is live after one more event. */
  lemma LiveStep(rs: seq<Run>, e: StreamEvent, x: StreamEvent)
    requires rs != []
    ensures Live(Extend(rs, e), x) <==>
            if IsContent(e) then SameKind(e, x) else Live(rs, x) && (IsEmptyDelta(e) ==> SameKind(e, x))
  {
    if IsDelta(e) { assert Last(rs).text + "" == Last(rs).text; }
  }

  predicate OfKind(b: ContentBlock, e: StreamEvent) {
    (e.Text? <==> b.TextBlock?) && (e.Thinking? <==> b.ThinkingBlock?)
  }

  lemma PieceKind(e: StreamEvent)
    requires IsContent(e)
    ensures OfKind(Piece(e), e)
  {
  }

  lemma MergedKind(a: ContentBlock, b: ContentBlock, e: StreamEvent)
    requires Merge(a, b) && OfKind(b, e)
    ensures OfKind(Merged(a, b), e)
  {
  }

  /** The last block after a content event is of its kind. */
  lemma LastPiece(rs: seq<Run>, e: StreamEvent)
    requires rs != [] && IsContent(e)
    ensures PlainRuns(Extend(rs, e)) != [] && OfKind(Last(PlainRuns(Extend(rs, e))), e)
  {
    var p := PlainRuns(rs);
    PieceKind(e);
    PlainStep(rs, e);
    hide PlainRuns, Extend, Live, Merge, Merged, Piece, IsContent, OfKind;
    if Live(rs, e) { MergedKind(Last(p), Piece(e), e); }
  }

  lemma TracksContent(es: seq<StreamEvent>, rs: seq<Run>)
    requires es != [] && rs != [] && IsContent(Last(es))
    ensures Tracks(es, Extend(rs, Last(es)))
  {
    var e := Last(es);
    LastPiece(rs, e);
    forall x ensures Live(Extend(rs, e), x) <==> SameKind(e, x) { LiveStep(rs, e, x); }
    assert LastContent(es) == Some(|es| - 1);
    assert !Interrupted(es, |es| - 1);
    hide PlainRuns, LastContent, Interrupted, Extend, Live, IsContent;
  }

  lemma TracksOther(es: seq<StreamEvent>, rs: seq<Run>)
    requires es != [] && rs != [] && Tracks(Front(es), rs) && !IsContent(Last(es))
    ensures Tracks(es, Extend(rs, Last(es)))
  {
    var e := Last(es);
    var i := LastContent(Front(es));
    PlainStep(rs, e);
    forall x
      ensures Live(Extend(rs, e), x) <==> Live(rs, x) && (IsEmptyDelta(e) ==> SameKind(e, x))
    {
      LiveStep(rs, e, x);
    }
    assert LastContent(es) == i;
    if i.Some? { InterruptedNext(es, i.value); }
    hide PlainRuns, LastContent, Interrupted, Extend, Live, IsContent, Merge, Merged;
  }

  lemma {:induction false} TracksAll(es: seq<StreamEvent>)
    ensures Tracks(es, Runs(es))
  {
    if es == [] {
      assert PlainRuns([Run(Opening, "", None)]) == [];
    } else {
      TracksAll(Front(es));
      if IsContent(Last(es)) { TracksContent(es, Runs(Front(es))); } else { TracksOther(es, Runs(Front(es))); }
      hide Tracks, Extend;
    }
  }

  /** One more event separates a delta from its like, or some earlier one did. */
  lemma SplitsNext(es: seq<StreamEvent>)
    requires es != []
    ensures Splits(es) <==> Splits(Front(es)) || SplitBefore(Front(es), Last(es))
  {
    hide SplitBefore;
    var n := |es| - 1;
    if Splits(Front(es)) {
      var k :| 0 <= k < n && SplitBefore(Front(es)[..k], Front(es)[k]);
      assert Front(es)[..k] == es[..k];
      assert SplitBefore(es[..k], es[k]);
    }
    if Splits(es) {
      var k :| 0 <= k < |es| && SplitBefore(es[..k], es[k]);
      assert k < n ==> Front(es)[..k] == es[..k];
      if k < n { assert SplitBefore(Front(es)[..k], Front(es)[k]); }
    }
  }

  lemma NeighboursNext(p: seq<ContentBlock>, b: ContentBlock)
    ensures NoMergingNeighbours(p + [b]) <==> NoMergingNeighbours(p) && (p == [] || !Merge(Last(p), b))
  {
    hide Merge;
    var q := p + [b];
    if NoMergingNeighbours(q) {
      forall i | 0 < i < |p| ensures !Merge(p[i - 1], p[i]) { assert q[i - 1] == p[i - 1] && q[i] == p[i]; }
      assert p != [] ==> q[|p| - 1] == Last(p) && q[|p|] == b;
    }
    if NoMergingNeighbours(p) && (p == [] || !Merge(Last(p), b)) {
      forall i | 0 < i < |q| ensures !Merge(q[i - 1], q[i]) { assert i < |p| ==> q[i] == p[i]; }
    }
  }

  lemma NeighboursOfMerged(p: seq<ContentBlock>, b: ContentBlock)
    requires p != [] && Merge(Last(p), b)
    ensures NoMergingNeighbours(Front(p) + [Merged(Last(p), b)]) <==> NoMergingNeighbours(p)
  {
    var x, l := Front(p), Last(p);
    assert p == x + [l];
    NeighboursNext(x, l);
    NeighboursNext(x, Merged(l, b));
    if x != [] { MergedAlike(Last(x), l, b); }
    hide Merge, Merged, NoMergingNeighbours;
  }

  /** Neighbouring blocks of one kind come only from such a separation. */
  lemma {:induction false} NeighboursAreSplits(es: seq<StreamEvent>)
    ensures NoMergingNeighbours(PlainRuns(Runs(es))) <==> !Splits(es)
  {
    if es == [] {
      assert PlainRuns([Run(Opening, "", None)]) == [];
    } else {
      var front, e := Front(es), Last(es);
      var rs, p := Runs(front), PlainRuns(Runs(front));
      NeighboursAreSplits(front);
      TracksAll(front);
      PlainStep(rs, e);
      SplitsNext(es);
      if IsContent(e) {
        NeighboursNext(p, Piece(e));
        SplitIsMerge(front, rs, e);
        if Live(rs, e) { NeighboursOfMerged(p, Piece(e)); }
      }
      hide PlainRuns, Extend, NoMergingNeighbours, Splits, Live, Tracks, Merge, Merged, LastContent;
    }
  }

  lemma SplitIsMerge(front: seq<StreamEvent>, rs: seq<Run>, e: StreamEvent)
    requires rs != [] && IsContent(e) && Tracks(front, rs)
    ensures var p := PlainRuns(rs);
            SplitBefore(front, e) <==> p != [] && Merge(Last(p), Piece(e)) && !Live(rs, e)
  {
    hide PlainRuns, Interrupted, LastContent;
  }

  /**
   * Empty deltas can be left out without changing the blocks, signatures aside, exactly if
   * none of them separates two deltas of the other kind that are not empty.
   */
  lemma EmptyDeltasMatterIffTheySplit(es: seq<StreamEvent>)
    ensures PlainBlocks(Rebuilt(WithoutEmptyDeltas(es))) == PlainBlocks(Rebuilt(es)) <==> !Splits(es)
  {
    RebuiltIsBlocks(es);
    RebuiltIsBlocks(WithoutEmptyDeltas(es));
    PlainRunsAre(Runs(es));
    PlainRunsAre(Runs(WithoutEmptyDeltas(es)));
    WithoutEmptyDeltasMerges(es);
    CoalesceShortens(PlainRuns(Runs(es)));
    NeighboursAreSplits(es);
  }

  // ----- end to end -----

  ghost predicate Proper(es: seq<StreamEvent>) {
    forall i :: 0 <= i < |es| ==> !Terminal(es[i])
  }

  lemma {:induction false} AnnouncedAreProper(chunks: seq<seq<StreamEvent>>, bs: seq<ContentBlock>)
    requires AllAnnounced(chunks, bs)
    ensures Proper(Flatten(chunks)) && forall i :: 0 <= i < |Flatten(chunks)| ==> !Flatten(chunks)[i].Start?
  {
    if bs != [] {
      var n := |bs| - 1;
      AnnouncedAreProper(chunks[..n], bs[..n]);
      assert Announces(chunks[n], bs[n]);
    }
  }

  lemma ModelDelivered(opening: seq<StreamEvent>, chunks: seq<seq<StreamEvent>>, bs: seq<ContentBlock>)
    requires Opens(opening) && AllAnnounced(chunks, bs)
    ensures Proper(opening + Flatten(chunks))
    ensures var a := Fold(EMPTY, opening + Flatten(chunks));
            (if a.started then a.model else "") == if opening == [] then "" else Last(opening).model
  {
    AnnouncedAreProper(chunks, bs);
    OpeningHoldsNothing(opening);
    FoldConcat(EMPTY, opening, Flatten(chunks));
    ModelStays(Fold(EMPTY, opening), Flatten(chunks));
    hide Fold, Flatten, AllAnnounced, Holds;
  }

  /**
   * Blocks announced in any chunking, after an opening that names the model, with heartbeats
   * inserted anywhere and the terminal event at the end, reach the caller through pump and
   * consumer: merged where neighbours are of one kind, and exactly as they were if there are
   * none, under the model's name. The tool calls handed to the tool loop are those of the
   * blocks delivered.
   */
  lemma RoundTripEndToEnd(opening: seq<StreamEvent>, chunks: seq<seq<StreamEvent>>, bs: seq<ContentBlock>,
                         done: StreamEvent, written: seq<StreamEvent>)
    requires Opens(opening) && AllAnnounced(chunks, bs) && done.Done?
    requires PingsInserted(written, opening + Flatten(chunks) + [done])
    ensures var r := Consumed(EMPTY, Lines(written)).0;
            && r.Ok? && r.value.blocks == Coalesce(bs) && (r.value.blocks == bs <==> NoMergingNeighbours(bs))
            && r.value.toolUses == ExtractToolUses(r.value.blocks)
            && r.value.model == if opening == [] then "" else Last(opening).model
  {
    var es := opening + Flatten(chunks);
    PumpedIsConsumedAlike(written, es + [done]);
    ModelDelivered(opening, chunks, bs);
    ConsumedIsFold(EMPTY, es, done, Lines(es + [done]));
    RoundTrip(opening, chunks, bs);
    ContentIsConserved(es);
    hide Consumed, Fold, Coalesce, ExtractToolUses, AllAnnounced, PingsInserted;
    hide AtomsOfBlocks, AtomsOfEvents, NoMergingNeighbours;
  }
}
