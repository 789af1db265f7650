/**
 * When empty deltas matter to signatures. An empty text delta ends the thinking before it, so
 * that a signature which follows belongs to a later block; without the delta it would not.
 */
module StreamSignatures {
  import opened Common
  import opened Stream
  import opened StreamBlocks
  import opened StreamRoundTrip

  /** The last content is thinking. */
  predicate Open(es: seq<StreamEvent>) {
    var i := LastContent(es); i.Some? && es[i.value].Thinking?
  }

  /** And an empty text delta came after it. */
  predicate Cut(es: seq<StreamEvent>) {
    Open(es) && Interrupted(es, LastContent(es).value)
  }

  /** The event `e` ends the thinking: any text, even an empty one, a tool call, or redacted data. */
  predicate Ends(es: seq<StreamEvent>, e: StreamEvent) {
    Open(es) && !Cut(es) && (e.Text? || e.ToolUse? || e.RedactedThinking?)
  }

  /** The last signature since thinking was last cut or ended. */
  function Signature(es: seq<StreamEvent>): Option<string> {
    if es == [] then None
    else if Last(es).ThinkingSignature? then Some(Last(es).signature)
    else if Ends(Front(es), Last(es)) then None
    else Signature(Front(es))
  }

  /** The signature that the thinking has in time: up to where it was cut, if it was. */
  function InTime(es: seq<StreamEvent>): Option<string> {
    if es == [] || !Cut(es) then Signature(es)
    else if Cut(Front(es)) then InTime(Front(es))
    else Signature(Front(es))
  }

  /** The last signature since thinking was last ended by more than an empty delta. */
  function Own(es: seq<StreamEvent>): Option<string> {
    Signature(WithoutEmptyDeltas(es))
  }

  /**
   * Where thinking is over, a signature that came after the cut repeats the one in time; and
   * if there was none, the one in time is its own, not left over from the thinking before.
   */
  predicate Agrees(es: seq<StreamEvent>) {
    Open(es) ==>
      if Cut(es) && Signature(es).Some? then Signature(es) == InTime(es) else Own(es).Some? || InTime(es).None?
  }

  /** At position `k` the stream is over, or comes content other than thinking. */
  predicate Over(es: seq<StreamEvent>, k: nat)
    requires k <= |es|
  {
    k == |es| || (IsContent(es[k]) && !es[k].Thinking?)
  }

  predicate AgreesBefore(es: seq<StreamEvent>, n: nat)
    requires n <= |es|
  {
    forall k :: 0 <= k < n && Over(es, k) ==> Agrees(es[..k])
  }

  // ----- one more event -----

  lemma OpenNext(es: seq<StreamEvent>, e: StreamEvent)
    ensures Open(es + [e]) == if IsContent(e) then e.Thinking? else Open(es)
    ensures Cut(es + [e]) <==> !IsContent(e) && Open(es) && (Cut(es) || (e.Text? && e.text == ""))
  {
    var all := es + [e];
    assert Front(all) == es && Last(all) == e;
    if IsContent(e) {
      assert LastContent(all) == Some(|es|);
    } else {
      var i := LastContent(es);
      assert LastContent(all) == i;
      if i.Some? {
        assert all[i.value] == es[i.value];
        InterruptedNext(all, i.value);
      }
    }
    hide LastContent, Interrupted;
  }

  lemma SignatureNext(es: seq<StreamEvent>, e: StreamEvent)
    ensures Signature(es + [e]) ==
            if e.ThinkingSignature? then Some(e.signature) else if Ends(es, e) then None else Signature(es)
    ensures InTime(es + [e]) ==
            if !Cut(es + [e]) then Signature(es + [e]) else if Cut(es) then InTime(es) else Signature(es)
    ensures WithoutEmptyDeltas(es + [e]) == WithoutEmptyDeltas(es) + if IsEmptyDelta(e) then [] else [e]
  {
    assert Front(es + [e]) == es;
  }

  /** Without empty deltas thinking is open at the same places, and never cut. */
  lemma {:induction false} OpenWithoutEmpty(es: seq<StreamEvent>)
    ensures var rest := WithoutEmptyDeltas(es); Open(rest) == Open(es) && !Cut(rest)
  {
    if es != [] {
      var front, e := Front(es), Last(es);
      var rest := WithoutEmptyDeltas(front);
      OpenWithoutEmpty(front);
      assert es == front + [e];
      SignatureNext(front, e);
      OpenNext(front, e);
      assert rest + [] == rest;
      OpenNext(rest, e);
      hide Open, Cut, WithoutEmptyDeltas;
    }
  }

  lemma KindsOfEvent(e: StreamEvent)
    ensures IsEmptyDelta(e) ==> !IsContent(e) && !e.ThinkingSignature?
    ensures !IsEmptyDelta(e) ==> (e.Text? || e.ToolUse? || e.RedactedThinking? <==> IsContent(e) && !e.Thinking?)
  {
  }

  lemma OwnNext(es: seq<StreamEvent>, e: StreamEvent)
    ensures Own(es + [e]) ==
            if e.ThinkingSignature? then Some(e.signature)
            else if Open(es) && IsContent(e) && !e.Thinking? then None else Own(es)
  {
    var rest := WithoutEmptyDeltas(es);
    KindsOfEvent(e);
    SignatureNext(es, e);
    OpenWithoutEmpty(es);
    hide Open, Cut, WithoutEmptyDeltas, Signature, IsContent, IsEmptyDelta;
    if IsEmptyDelta(e) {
      assert rest + [] == rest;
    } else {
      SignatureNext(rest, e);
    }
  }

  /** A signature after the cut is its own; so is any signature in time, unless left over. */
  lemma {:induction false} OwnIs(es: seq<StreamEvent>)
    requires !Splits(es)
    ensures Cut(es) && Signature(es).Some? ==> Own(es) == Signature(es)
    ensures !(Cut(es) && Signature(es).Some?) && Own(es).Some? ==> Own(es) == InTime(es)
  {
    if es != [] {
      var front, e := Front(es), Last(es);
      assert es == front + [e];
      SplitsNext(es);
      OwnIs(front);
      OwnNext(front, e);
      SignatureNext(front, e);
      OpenNext(front, e);
      CutIsSplit(front, e);
      hide Open, Cut, Own, Signature, InTime, SplitBefore, Splits;
    }
  }

  /** After a cut, more thinking would be split from it. */
  lemma CutIsSplit(es: seq<StreamEvent>, e: StreamEvent)
    ensures Cut(es) && IsContent(e) && e.Thinking? ==> SplitBefore(es, e)
  {
    hide LastContent, Interrupted;
  }

  lemma AgreesMeans(es: seq<StreamEvent>)
    requires !Splits(es)
    ensures Agrees(es) <==> (Open(es) ==> Own(es) == InTime(es))
  {
    OwnIs(es);
    hide Open, Cut, Own, Signature, InTime, Splits;
  }

  // ----- the signatures of the blocks -----

  /** The signatures of the thinking blocks. */
  function Signatures(bs: seq<ContentBlock>): seq<Option<string>> {
    if bs == [] then []
    else Signatures(Front(bs)) + if Last(bs).ThinkingBlock? then [Last(bs).signature] else []
  }

  /** What the thinking that has ended was signed with. */
  function Ended(es: seq<StreamEvent>): seq<Option<string>> {
    if es == [] then []
    else Ended(Front(es)) + if Ends(Front(es), Last(es)) then [Signature(Front(es))] else []
  }

  lemma SignaturesSnoc(bs: seq<ContentBlock>, b: ContentBlock)
    ensures Signatures(bs + [b]) == Signatures(bs) + if b.ThinkingBlock? then [b.signature] else []
  {
    assert Front(bs + [b]) == bs;
  }

  lemma SignaturesFlushed(a: Acc)
    ensures FlushThinking(a).pendingSignature == if a.thinkingBuf != "" then None else a.pendingSignature
    ensures FlushText(a).pendingSignature == a.pendingSignature
    ensures Signatures(FlushText(a).blocks) == Signatures(a.blocks)
    ensures Signatures(FlushThinking(a).blocks)
            == Signatures(a.blocks) + if a.thinkingBuf != "" then [a.pendingSignature] else []
    ensures FlushText(a).thinkingBuf == a.thinkingBuf
  {
    SignaturesSnoc(a.blocks, TextBlock(a.textBuf));
    SignaturesSnoc(a.blocks, ThinkingBlock(a.thinkingBuf, a.pendingSignature));
    hide Signatures;
    assert Signatures(a.blocks) + [] == Signatures(a.blocks);
  }

  /** How one event moves the signatures. */
  lemma SignaturesNext(a: Acc, e: StreamEvent)
    ensures var a' := Absorb(a, e);
            var ends := a.thinkingBuf != "" && (e.Text? || e.ToolUse? || e.RedactedThinking?);
            && Signatures(a'.blocks) == Signatures(a.blocks) + (if ends then [a.pendingSignature] else [])
            && a'.pendingSignature ==
               if e.ThinkingSignature? then Some(e.signature) else if ends then None else a.pendingSignature
  {
    SignaturesFlushed(a);
    hide Signatures, FlushText, FlushThinking, Flush;
    match e
    case RedactedThinking(data) => SignaturesOfWhole(a, e, RedactedBlock(data));
    case ToolUse(tool) => SignaturesOfWhole(a, e, ToolUseBlock(tool));
    case _ => assert Signatures(a.blocks) + [] == Signatures(a.blocks);
  }

  lemma SignaturesOfWhole(a: Acc, e: StreamEvent, b: ContentBlock)
    requires (e.ToolUse? && b == ToolUseBlock(e.tool)) || (e.RedactedThinking? && b == RedactedBlock(e.data))
    ensures var a', buffered := Absorb(a, e), a.thinkingBuf != "";
            && Signatures(a'.blocks) == Signatures(a.blocks) + (if buffered then [a.pendingSignature] else [])
            && a'.pendingSignature == if buffered then None else a.pendingSignature
  {
    var f := Flush(a);
    SignaturesFlushed(a);
    SignaturesFlushed(FlushText(a));
    SignaturesSnoc(f.blocks, b);
    assert f == FlushThinking(FlushText(a));
    hide Signatures, FlushText, FlushThinking, Flush;
    assert Absorb(a, e).blocks == f.blocks + [b];
    assert Signatures(f.blocks) + [] == Signatures(f.blocks);
  }

  /** Thinking is in the buffer exactly while it is open and not cut. */
  lemma BufferedIffOpen(es: seq<StreamEvent>)
    ensures Fold(EMPTY, es).thinkingBuf != "" <==> Open(es) && !Cut(es)
  {
    var rs, a := Runs(es), Fold(EMPTY, es);
    MatchesAll(es);
    TracksAll(es);
    assert a.thinkingBuf != "" <==> Live(rs, Thinking("x"));
    var i := LastContent(es);
    if i.Some? && es[i.value].Thinking? {
      assert Live(rs, es[i.value]) <==> Live(rs, Thinking("x"));
    }
    hide Fold, Runs, PlainRuns, Interrupted, LastContent, Blocks;
  }

  lemma {:induction false} SignaturesAre(es: seq<StreamEvent>)
    ensures var a := Fold(EMPTY, es); Signatures(a.blocks) == Ended(es) && a.pendingSignature == Signature(es)
  {
    if es != [] {
      SignaturesAre(Front(es));
      SignaturesNext(Fold(EMPTY, Front(es)), Last(es));
      BufferedIffOpen(Front(es));
      hide Absorb, Signatures, Open, Cut;
    }
  }

  /** The signatures of all blocks: of the thinking that has ended, and of the one that has not. */
  lemma SignaturesRebuilt(es: seq<StreamEvent>)
    ensures Signatures(Rebuilt(es)) == Ended(es) + if Open(es) && !Cut(es) then [Signature(es)] else []
  {
    var a := Fold(EMPTY, es);
    SignaturesAre(es);
    BufferedIffOpen(es);
    SignaturesFlushed(a);
    SignaturesFlushed(FlushText(a));
    hide Signatures, Open, Cut, Fold, FlushText, FlushThinking, Ended, Signature;
  }

  /** Blocks are what they are without signatures, and their signatures. */
  lemma {:induction false} PlainAndSigned(xs: seq<ContentBlock>, ys: seq<ContentBlock>)
    ensures xs == ys <==> PlainBlocks(xs) == PlainBlocks(ys) && Signatures(xs) == Signatures(ys)
  {
    if xs == [] || ys == [] {
      assert xs != [] ==> |PlainBlocks(xs)| > 0;
      assert ys != [] ==> |PlainBlocks(ys)| > 0;
    } else {
      PlainAndSigned(Front(xs), Front(ys));
      assert xs == Front(xs) + [Last(xs)] && ys == Front(ys) + [Last(ys)];
      var ps, qs := PlainBlocks(xs), PlainBlocks(ys);
      assert Front(ps) == PlainBlocks(Front(xs)) && Last(ps) == PlainBlock(Last(xs));
      assert Front(qs) == PlainBlocks(Front(ys)) && Last(qs) == PlainBlock(Last(ys));
      hide PlainBlocks;
      if ps == qs && Signatures(xs) == Signatures(ys) {
        var ss, ts := Signatures(xs), Signatures(ys);
        if Last(xs).ThinkingBlock? {
          assert Front(ss) == Signatures(Front(xs)) && Last(ss) == Last(xs).signature;
          assert Front(ts) == Signatures(Front(ys)) && Last(ts) == Last(ys).signature;
        } else {
          assert ss == Signatures(Front(xs)) && ts == Signatures(Front(ys));
        }
      }
    }
  }

  // ----- with and without empty deltas -----

  lemma AgreesBeforeNext(es: seq<StreamEvent>, e: StreamEvent)
    ensures AgreesBefore(es + [e], |es| + 1) <==>
            AgreesBefore(es, |es|) && (IsContent(e) && !e.Thinking? ==> Agrees(es))
  {
    hide Agrees;
    var all, n := es + [e], |es|;
    assert all[..n] == es;
    assert forall k :: 0 <= k < n ==> all[..k] == es[..k] && all[k] == es[k];
    if AgreesBefore(all, n + 1) {
      forall k | 0 <= k < n && Over(es, k) ensures Agrees(es[..k]) { assert Over(all, k); }
      assert Over(all, n) ==> Agrees(all[..n]);
    }
    if AgreesBefore(es, n) && (IsContent(e) && !e.Thinking? ==> Agrees(es)) {
      forall k | 0 <= k < n + 1 && Over(all, k) ensures Agrees(all[..k]) { assert k < n ==> Over(es, k); }
    }
  }

  lemma EndedNext(es: seq<StreamEvent>, e: StreamEvent)
    ensures Ended(es + [e]) == Ended(es) + if Ends(es, e) then [Signature(es)] else []
  {
    assert Front(es + [e]) == es;
  }

  lemma EndedWithoutEmpty(es: seq<StreamEvent>, e: StreamEvent)
    ensures var x, x' := Ended(WithoutEmptyDeltas(es)), Ended(WithoutEmptyDeltas(es + [e]));
            x' == x + if Open(es) && IsContent(e) && !e.Thinking? then [Own(es)] else []
  {
    var rest := WithoutEmptyDeltas(es);
    KindsOfEvent(e);
    SignatureNext(es, e);
    OpenWithoutEmpty(es);
    EndedNext(rest, e);
    hide Open, Cut, WithoutEmptyDeltas, Signature, Ended, IsContent, IsEmptyDelta;
    assert rest + [] == rest && Ended(rest) + [] == Ended(rest);
  }

  /** While thinking is cut, it has ended already, with the signature in time; else all went the same way. */
  predicate InParallel(es: seq<StreamEvent>) {
    var all, kept := Ended(es), Ended(WithoutEmptyDeltas(es));
    && |all| == |kept| + (if Cut(es) then 1 else 0)
    && (Cut(es) ==> Last(all) == InTime(es))
    && (AgreesBefore(es, |es|) <==> kept == all[..|kept|])
  }

  lemma SameLast<T>(xs: seq<T>, ys: seq<T>, x: T, y: T)
    requires |xs| == |ys|
    ensures xs + [x] == ys + [y] <==> xs == ys && x == y
  {
    assert Front(xs + [x]) == xs && Last(xs + [x]) == x;
    assert Front(ys + [y]) == ys && Last(ys + [y]) == y;
  }

  lemma OneMore<T>(all: seq<T>, kept: seq<T>, open: bool, cut: bool, last: T, own: T, inTime: T)
    requires |all| == |kept| + if cut then 1 else 0
    requires if cut then open && Last(all) == inTime else last == inTime
    ensures var all', kept' := all + (if open && !cut then [last] else []), kept + if open then [own] else [];
            |all'| == |kept'| && (kept' == all' <==> kept == all[..|kept|] && (open ==> own == inTime))
  {
    assert all + [] == all && kept + [] == kept;
    if cut {
      assert all == Front(all) + [Last(all)];
      SameLast(kept, Front(all), own, inTime);
    } else {
      SameLast(kept, all, own, inTime);
    }
  }

  /** Were thinking over now, the signatures would be the same exactly if they were so far and agree. */
  lemma InParallelOver(es: seq<StreamEvent>)
    requires InParallel(es) && !Splits(es)
    ensures var all := Ended(es) + if Open(es) && !Cut(es) then [Signature(es)] else [];
            var kept := Ended(WithoutEmptyDeltas(es)) + if Open(es) then [Own(es)] else [];
            |all| == |kept| && (kept == all <==> AgreesBefore(es, |es|) && Agrees(es))
  {
    AgreesMeans(es);
    assert !Cut(es) ==> InTime(es) == Signature(es);
    assert Cut(es) ==> Open(es);
    hide Splits, Open, Cut, Ended, WithoutEmptyDeltas, Signature, InTime, Own, AgreesBefore, Agrees;
    OneMore(Ended(es), Ended(WithoutEmptyDeltas(es)), Open(es), Cut(es), Signature(es), Own(es), InTime(es));
  }

  /** Content that is not thinking: what was open is over on both sides. */
  lemma InParallelWhenOver(es: seq<StreamEvent>, e: StreamEvent)
    requires InParallel(es) && !Splits(es) && IsContent(e) && !e.Thinking?
    ensures InParallel(es + [e])
  {
    InParallelOver(es);
    AgreesBeforeNext(es, e);
    EndedNext(es, e);
    EndedWithoutEmpty(es, e);
    OpenNext(es, e);
    KindsOfEvent(e);
    hide Splits, Open, Cut, Ended, WithoutEmptyDeltas, Signature, InTime, Own, AgreesBefore, Agrees, IsContent;
    var all := Ended(es + [e]);
    assert all[..|all|] == all;
  }

  lemma InParallelElse(es: seq<StreamEvent>, e: StreamEvent)
    requires InParallel(es) && !SplitBefore(es, e) && (IsContent(e) ==> e.Thinking?)
    ensures InParallel(es + [e])
  {
    AgreesBeforeNext(es, e);
    EndedNext(es, e);
    EndedWithoutEmpty(es, e);
    SignatureNext(es, e);
    OpenNext(es, e);
    CutIsSplit(es, e);
    assert Ends(es, e) <==> Open(es) && !Cut(es) && e.Text?;
    assert e.Text? ==> e.text == "";
    hide SplitBefore, Open, Cut, Ends, Ended, WithoutEmptyDeltas, Signature, InTime, AgreesBefore, Agrees, IsContent;
    var all, kept := Ended(es), Ended(WithoutEmptyDeltas(es));
    assert kept + [] == kept && all + [] == all;
    if Ends(es, e) { assert (all + [Signature(es)])[..|kept|] == all; }
  }

  lemma InParallelAtFirst()
    ensures InParallel([])
  {
  }

  lemma {:induction false} AlwaysInParallel(es: seq<StreamEvent>)
    requires !Splits(es)
    ensures InParallel(es)
  {
    if es != [] {
      var front, e := Front(es), Last(es);
      assert es == front + [e];
      SplitsNext(es);
      hide *;
      AlwaysInParallel(front);
      if IsContent(e) && !e.Thinking? {
        InParallelWhenOver(front, e);
      } else {
        InParallelElse(front, e);
      }
    } else {
      InParallelAtFirst();
    }
  }

  lemma OwnDef(es: seq<StreamEvent>)
    ensures Own(es) == Signature(WithoutEmptyDeltas(es))
  {
  }

  lemma SignaturesMatter(es: seq<StreamEvent>)
    requires !Splits(es)
    ensures Signatures(Rebuilt(WithoutEmptyDeltas(es))) == Signatures(Rebuilt(es)) <==>
              AgreesBefore(es, |es|) && Agrees(es)
  {
    AlwaysInParallel(es);
    InParallelOver(es);
    SignaturesRebuilt(es);
    SignaturesRebuilt(WithoutEmptyDeltas(es));
    OpenWithoutEmpty(es);
    hide *;
    assert Own(es) == Signature(WithoutEmptyDeltas(es)) by { OwnDef(es); }
  }

  /**
   * Leaving out empty deltas changes nothing at all, signatures included, exactly if none of
   * them separates two deltas of the other kind that are not empty, and wherever thinking is
   * over, a signature that came late repeats the one in time, and none is left over from it.
   */
  lemma EmptyDeltasMatterWithSignatures(es: seq<StreamEvent>)
    ensures Rebuilt(WithoutEmptyDeltas(es)) == Rebuilt(es) <==>
              !Splits(es) && forall k :: 0 <= k <= |es| && Over(es, k) ==> Agrees(es[..k])
  {
    EmptyDeltasMatterIffTheySplit(es);
    PlainAndSigned(Rebuilt(WithoutEmptyDeltas(es)), Rebuilt(es));
    if !Splits(es) { SignaturesMatter(es); }
    hide Splits, Rebuilt, WithoutEmptyDeltas, PlainBlocks, Agrees, Signatures;
    assert es[..|es|] == es && Over(es, |es|);
  }

  // ----- signatures that are not repeated -----

  /** The signature `e` comes late: an empty text delta is between it and the thinking it follows. */
  predicate LateSignature(es: seq<StreamEvent>, e: StreamEvent) {
    e.ThinkingSignature? && Cut(es)
  }

  predicate SignaturesInTime(es: seq<StreamEvent>) {
    forall k :: 0 <= k < |es| ==> !LateSignature(es[..k], es[k])
  }

  /** The signature at `k` comes late, and is the first that does. */
  predicate FirstLate(es: seq<StreamEvent>, k: nat)
    requires k < |es|
  {
    LateSignature(es[..k], es[k]) && SignaturesInTime(es[..k])
  }

  /** From the first late signature on, none repeats one before it. */
  ghost predicate NoRepeatFromLate(es: seq<StreamEvent>) {
    forall k, s :: 0 <= k < |es| && FirstLate(es, k) && ThinkingSignature(s) in es[k..] ==>
      ThinkingSignature(s) !in es[..k]
  }

  lemma FirstLateExists(es: seq<StreamEvent>) returns (k: nat)
    requires !SignaturesInTime(es)
    ensures k < |es| && FirstLate(es, k)
  {
    hide LateSignature;
    k := 0;
    while !LateSignature(es[..k], es[k])
      invariant 0 <= k < |es| && forall j :: 0 <= j < k ==> !LateSignature(es[..j], es[j])
      decreases |es| - k
    {
      k := k + 1;
    }
    assert forall j :: 0 <= j < k ==> es[..k][..j] == es[..j];
  }

  lemma SignaturesInTimeBefore(es: seq<StreamEvent>, n: nat)
    requires SignaturesInTime(es) && n <= |es|
    ensures SignaturesInTime(es[..n])
  {
    hide LateSignature;
    forall k | 0 <= k < n ensures !LateSignature(es[..n][..k], es[..n][k]) { assert es[..n][..k] == es[..k]; }
  }

  lemma {:induction false} InTimeAgrees(es: seq<StreamEvent>)
    requires SignaturesInTime(es)
    ensures Agrees(es)
    ensures (Cut(es) ==> Signature(es).None?) && (InTime(es).Some? ==> Own(es).Some?)
  {
    if es != [] {
      var front, e := Front(es), Last(es);
      assert es == front + [e] && es[..|front|] == front;
      SignaturesInTimeBefore(es, |front|);
      InTimeAgrees(front);
      OwnNext(front, e);
      SignatureNext(front, e);
      OpenNext(front, e);
      assert !LateSignature(front, e);
      assert !Cut(front) ==> InTime(front) == Signature(front);
      hide Open, Cut, Own, Signature, InTime, SignaturesInTime;
    }
  }

  lemma {:induction false} SignatureIsThere(es: seq<StreamEvent>)
    ensures Signature(es).Some? ==> SignedIn(Signature(es), es)
    ensures InTime(es).Some? ==> SignedIn(InTime(es), es)
  {
    if es != [] {
      SignatureIsThere(Front(es));
      assert es == Front(es) + [Last(es)];
      hide Cut, Ends;
    }
  }

  /** The last signature is among the events. */
  predicate SignedIn(signature: Option<string>, es: seq<StreamEvent>) {
    signature.Some? && ThinkingSignature(signature.value) in es
  }

  lemma LateNext(front: seq<StreamEvent>, e: StreamEvent, tail: seq<StreamEvent>)
    requires Cut(front) && !SplitBefore(front, e) && (IsContent(e) ==> e.Thinking?)
    requires e.ThinkingSignature? || SignedIn(Signature(front), tail)
    ensures Cut(front + [e]) && InTime(front + [e]) == InTime(front)
    ensures SignedIn(Signature(front + [e]), tail + [e])
  {
    SignatureNext(front, e);
    OpenNext(front, e);
    CutIsSplit(front, e);
    assert !Ends(front, e) && Open(front);
    hide Open, Cut, Signature, InTime, SplitBefore, Ends, IsContent;
    assert e in tail + [e];
    assert forall x :: x in tail ==> x in tail + [e];
  }

  /** While thinking is cut, a late signature is replaced only by a later one. */
  lemma {:induction false} LateFrom(before: seq<StreamEvent>, tail: seq<StreamEvent>)
    requires !Splits(before + tail) && tail != [] && LateSignature(before, tail[0])
    requires forall e :: e in tail && IsContent(e) ==> e.Thinking?
    ensures var es := before + tail;
            Cut(es) && InTime(es) == InTime(before) && SignedIn(Signature(es), tail)
  {
    var front, e := Front(tail), Last(tail);
    assert Front(before + tail) == before + front && before + tail == (before + front) + [e] && tail == front + [e];
    SplitsNext(before + tail);
    assert e in tail && forall x :: x in front ==> x in tail;
    hide Cut, Signature, InTime, Splits, SplitBefore, SignedIn, IsContent;
    if front == [] {
      assert before + front == before;
    } else {
      LateFrom(before, front);
    }
    LateNext(before + front, e, front);
  }

  /** Where the thinking before a late signature is over. */
  lemma OverFrom(es: seq<StreamEvent>, k: nat) returns (m: nat)
    requires k <= |es|
    ensures k <= m <= |es| && Over(es, m) && forall j :: k <= j < m ==> !Over(es, j)
  {
    m := k;
    while !Over(es, m)
      invariant k <= m <= |es| && forall j :: k <= j < m ==> !Over(es, j)
      decreases |es| - m
    {
      m := m + 1;
    }
  }

  lemma SplitsOfPrefix(es: seq<StreamEvent>, k: nat)
    requires k <= |es| && Splits(es[..k])
    ensures Splits(es)
  {
    hide SplitBefore;
    var j :| 0 <= j < k && SplitBefore(es[..k][..j], es[..k][j]);
    assert es[..k][..j] == es[..j];
  }

  lemma NothingOver(es: seq<StreamEvent>, k: nat, m: nat, e: StreamEvent)
    requires k <= m <= |es| && e in es[k..m] && IsContent(e)
    requires forall j :: k <= j < m ==> !Over(es, j)
    ensures e.Thinking?
  {
    hide IsContent;
    var j :| k <= j < m && es[j] == e;
    assert !Over(es, j);
  }

  lemma LateUntil(es: seq<StreamEvent>, k: nat, m: nat)
    requires !Splits(es) && k < m <= |es| && LateSignature(es[..k], es[k])
    requires forall j :: k <= j < m ==> !Over(es, j)
    ensures Cut(es[..m]) && InTime(es[..m]) == InTime(es[..k]) && SignedIn(Signature(es[..m]), es[k..m])
  {
    hide *;
    assert es[..m] == es[..k] + es[k..m] && es[k..m][0] == es[k];
    if Splits(es[..m]) { SplitsOfPrefix(es, m); }
    forall e | e in es[k..m] && IsContent(e) ensures e.Thinking? { NothingOver(es, k, m, e); }
    LateFrom(es[..k], es[k..m]);
  }

  lemma LateSignatureMatters(es: seq<StreamEvent>, k: nat)
    requires !Splits(es) && NoRepeatFromLate(es) && k < |es| && FirstLate(es, k)
    ensures exists m :: 0 <= m <= |es| && Over(es, m) && !Agrees(es[..m])
  {
    var m := OverFrom(es, k);
    assert m > k && LateSignature(es[..k], es[k]);
    hide *;
    LateUntil(es, k, m);
    NotRepeated(es, k, m);
    LateDisagrees(es[..m]);
  }

  lemma LateDisagrees(es: seq<StreamEvent>)
    requires Cut(es) && Signature(es).Some? && Signature(es) != InTime(es)
    ensures !Agrees(es)
  {
  }

  lemma NotRepeated(es: seq<StreamEvent>, k: nat, m: nat)
    requires NoRepeatFromLate(es) && k < m <= |es| && FirstLate(es, k)
    requires SignedIn(Signature(es[..m]), es[k..m])
    ensures Signature(es[..m]).Some? && Signature(es[..m]) != InTime(es[..k])
  {
    SignatureIsThere(es[..k]);
    hide FirstLate, Signature, InTime;
    assert es[k..] == es[k..m] + es[m..];
    assert ThinkingSignature(Signature(es[..m]).value) in es[k..];
  }

  /**
   * So no signature must be late, if none is repeated. Nothing is lost without late
   * signatures, repeated or not.
   */
  lemma LateSignaturesMatter(es: seq<StreamEvent>)
    ensures var same := Rebuilt(WithoutEmptyDeltas(es)) == Rebuilt(es);
            && (!Splits(es) && SignaturesInTime(es) ==> same)
            && (NoRepeatFromLate(es) ==> (same <==> !Splits(es) && SignaturesInTime(es)))
  {
    EmptyDeltasMatterWithSignatures(es);
    hide Splits, Rebuilt, WithoutEmptyDeltas, Agrees, NoRepeatFromLate, SignaturesInTime, Over;
    if !Splits(es) && SignaturesInTime(es) {
      forall k | 0 <= k <= |es|
        ensures Agrees(es[..k])
      {
        SignaturesInTimeBefore(es, k);
        InTimeAgrees(es[..k]);
      }
    } else if !Splits(es) && NoRepeatFromLate(es) {
      var k := FirstLateExists(es);
      LateSignatureMatters(es, k);
    }
  }

  /** The shortest such list: the signature comes late, and without the empty delta it does not. */
  lemma EmptyTextKeepsSignatureAway()
    ensures var es := [Thinking("a"), Text(""), ThinkingSignature("s")];
            && Rebuilt(es) == [ThinkingBlock("a", None)]
            && Rebuilt(WithoutEmptyDeltas(es)) == [ThinkingBlock("a", Some("s"))]
  {
    var e0, e1, e2 := Thinking("a"), Text(""), ThinkingSignature("s");
    assert Front([e0, e1, e2]) == [e0, e1] && Front([e0, e1]) == [e0] && Front([e0]) == [] && Front([e0, e2]) == [e0];
    assert WithoutEmptyDeltas([e0]) == [e0] && WithoutEmptyDeltas([e0, e1]) == [e0] by { assert [e0] + [] == [e0]; }
    assert WithoutEmptyDeltas([e0, e1, e2]) == [e0, e2];
    assert "" + "a" == "a" && "" + "" == "";
    assert Fold(EMPTY, [e0]) == EMPTY.(thinkingBuf := "a");
    assert Fold(EMPTY, [e0, e1]) == EMPTY.(blocks := [ThinkingBlock("a", None)]);
    assert Fold(EMPTY, [e0, e1, e2]) == EMPTY.(blocks := [ThinkingBlock("a", None)], pendingSignature := Some("s"));
    assert Fold(EMPTY, [e0, e2]) == EMPTY.(thinkingBuf := "a", pendingSignature := Some("s"));
  }
}
