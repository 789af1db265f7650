/**
 * Removal of earlier thinking from the history that is sent along with each request. The
 * history only grows between requests; what is sent of its messages should change little,
 * since every change spoils the provider's prompt cache from there on.
 */
module ThinkingStrip {
  import opened Common
  import opened Conversation

  datatype Replay = All | LastTurn | Nothing

  /** Providers that must be sent all earlier reasoning. */
  predicate RequiresReasoningReplay(provider: string) {
    provider == "deepseek" || provider == "moonshot" || provider == "moonshotai"
  }

  predicate IsThinking(b: Block) {
    b.ty == "thinking" || b.ty == "redacted_thinking"
  }

  function DropThinking(blocks: seq<Block>): seq<Block> {
    if blocks == [] then []
    else DropThinking(blocks[..|blocks| - 1]) + if IsThinking(blocks[|blocks| - 1]) then [] else [blocks[|blocks| - 1]]
  }

  function StripMessage(m: Message): Message {
    if m.role == "assistant" && m.content.Blocks? then m.(content := Blocks(DropThinking(m.content.blocks))) else m
  }

  predicate IsAssistant(m: Message) {
    m.role == "assistant"
  }

  /** A step of a tool loop: a user message of nothing but tool results. */
  predicate IsToolResultOnlyUser(m: Message) {
    m.role == "user" && m.content.Blocks? && m.content.blocks != [] &&
    forall i :: 0 <= i < |m.content.blocks| ==> m.content.blocks[i].ty == "tool_result"
  }

  predicate InTurn(m: Message) {
    IsAssistant(m) || IsToolResultOnlyUser(m)
  }

  predicate HasAssistant(h: seq<Message>) {
    exists i :: 0 <= i < |h| && IsAssistant(h[i])
  }

  // ----- the latest assistant turn, as a function -----

  /** The start of the run of turn messages that ends just before `start`. */
  function WalkBack(h: seq<Message>, start: nat): (s: nat)
    requires start <= |h|
    ensures s <= start
    ensures forall i :: s <= i < start ==> InTurn(h[i])
    ensures s > 0 ==> !InTurn(h[s - 1])
  {
    if start > 0 && InTurn(h[start - 1]) then WalkBack(h, start - 1) else start
  }

  function LastAssistant(h: seq<Message>): (i: nat)
    requires HasAssistant(h)
    ensures i < |h| && IsAssistant(h[i])
    ensures forall j :: i < j < |h| ==> !IsAssistant(h[j])
  {
    var n := |h| - 1;
    if IsAssistant(h[n]) then n
    else
      assert HasAssistant(h[..n]) by {
        var i :| 0 <= i < |h| && IsAssistant(h[i]);
        assert h[..n][i] == h[i];
      }
      LastAssistant(h[..n])
  }

  function TurnStart(h: seq<Message>): (s: nat)
    ensures s <= |h|
  {
    if HasAssistant(h) then WalkBack(h, LastAssistant(h)) else |h|
  }

  function StripBefore(h: seq<Message>, k: nat): (w: seq<Message>)
    ensures |w| == |h|
    ensures forall i :: 0 <= i < |h| ==> w[i] == if i < k then StripMessage(h[i]) else h[i]
  {
    seq(|h|, i requires 0 <= i < |h| => if i < k then StripMessage(h[i]) else h[i])
  }

  /** How much of the history is stripped. */
  function StripLength(h: seq<Message>, replay: Replay, provider: string): nat {
    if RequiresReasoningReplay(provider) then 0
    else match replay
      case All => 0
      case LastTurn => TurnStart(h)
      case Nothing => |h|
  }

  /** What is sent of a history. */
  function Wire(h: seq<Message>, replay: Replay, provider: string): (w: seq<Message>)
    ensures |w| == |h|
  {
    StripBefore(h, StripLength(h, replay, provider))
  }

  // ----- the strip functions, in place -----

  method StripThinkingFromMessage(a: array<Message>, i: nat)
    requires i < a.Length
    modifies a
    ensures a[..] == old(a[..])[i := StripMessage(old(a[i]))]
  {
    if a[i].role != "assistant" {
      return;
    }
    if a[i].content.Other? {
      return;
    }
    var blocks := a[i].content.blocks;
    var kept := [];
    for j := 0 to |blocks|
      invariant kept == DropThinking(blocks[..j]) && a[..] == old(a[..])
    {
      assert blocks[..j + 1][..j] == blocks[..j];
      if !IsThinking(blocks[j]) {
        kept := kept + [blocks[j]];
      }
    }
    assert blocks[..|blocks|] == blocks;
    a[i] := a[i].(content := Blocks(kept));
  }

  /**
   * The turn that starts at `start` is the maximal run of assistant messages and tool results
   * around the last assistant message, back to the last genuine message before it.
   */
  predicate IsKeptTurn(h: seq<Message>, start: nat)
    requires HasAssistant(h)
  {
    var last := LastAssistant(h);
    && start <= last && (start > 0 ==> !InTurn(h[start - 1]))
    && forall i :: start <= i <= last ==> InTurn(h[i])
  }

  lemma TurnStartIsKept(h: seq<Message>)
    requires HasAssistant(h)
    ensures IsKeptTurn(h, TurnStart(h))
  {
  }

  /** The number of messages up to the last one of the assistant, or none of them. */
  method UpToLastAssistant(a: array<Message>) returns (last: nat)
    ensures last <= a.Length && (HasAssistant(a[..]) <==> last > 0)
    ensures last > 0 ==> LastAssistant(a[..]) == last - 1
  {
    ghost var h := a[..];
    last := a.Length;
    while last > 0 && !IsAssistant(a[last - 1])
      invariant 0 <= last <= a.Length
      invariant forall j :: last <= j < a.Length ==> !IsAssistant(h[j])
    {
      last := last - 1;
    }
    if last > 0 {
      assert IsAssistant(h[last - 1]);
      LastAssistantIs(h, last - 1);
    }
  }

  method MostRecentAssistantTurnStart(a: array<Message>) returns (start: nat)
    ensures start == TurnStart(a[..])
    ensures if HasAssistant(a[..]) then IsKeptTurn(a[..], start) else start == a.Length
  {
    ghost var h := a[..];
    if HasAssistant(h) { TurnStartIsKept(h); }
    var last := UpToLastAssistant(a);
    if last == 0 {
      return a.Length;
    }
    start := last - 1;
    assert TurnStart(h) == WalkBack(h, start);
    hide IsToolResultOnlyUser, IsKeptTurn, TurnStart, HasAssistant;
    while start > 0
      invariant 0 <= start < a.Length && WalkBack(h, start) == TurnStart(h)
    {
      var prev := start - 1;
      if IsAssistant(a[prev]) {
        start := prev;
      } else if IsToolResultOnlyUser(a[prev]) {
        start := prev;
      } else {
        break;
      }
    }
  }

  method StripFirst(a: array<Message>, k: nat)
    requires k <= a.Length
    modifies a
    ensures a[..] == StripBefore(old(a[..]), k)
  {
    hide StripMessage;
    for i := 0 to a.Length
      invariant a[..] == StripBefore(old(a[..]), Min(i, k))
    {
      if i < k {
        StripThinkingFromMessage(a, i);
      }
    }
  }

  method MaybeStripPriorThinking(a: array<Message>, replay: Replay, provider: string)
    modifies a
    ensures a[..] == Wire(old(a[..]), replay, provider)
  {
    hide StripMessage, TurnStart;
    if RequiresReasoningReplay(provider) {
      assert a[..] == StripBefore(a[..], 0);
      return;
    }
    match replay {
      case All =>
        assert a[..] == StripBefore(a[..], 0);
      case LastTurn =>
        var keepFrom := MostRecentAssistantTurnStart(a);
        StripFirst(a, keepFrom);
      case Nothing =>
        StripFirst(a, a.Length);
    }
  }

  // ----- the kept turn -----

  lemma LastAssistantIs(h: seq<Message>, i: nat)
    requires i < |h| && IsAssistant(h[i]) && forall j :: i < j < |h| ==> !IsAssistant(h[j])
    ensures HasAssistant(h) && LastAssistant(h) == i
  {
  }

  lemma {:induction false} WalkBackAgrees(h: seq<Message>, g: seq<Message>, start: nat)
    requires start <= |h| <= |g| && forall i :: 0 <= i < start ==> (InTurn(h[i]) <==> InTurn(g[i]))
    ensures WalkBack(g, start) == WalkBack(h, start)
  {
    hide InTurn;
    if start > 0 && InTurn(h[start - 1]) {
      WalkBackAgrees(h, g, start - 1);
    }
  }

  /** Walking back over more of one run ends in the same place. */
  lemma {:induction false} WalkBackThrough(h: seq<Message>, low: nat, high: nat)
    requires low <= high <= |h| && forall i :: low <= i < high ==> InTurn(h[i])
    ensures WalkBack(h, high) == WalkBack(h, low)
  {
    hide InTurn;
    if low < high {
      WalkBackThrough(h, low, high - 1);
    }
  }

  /** Once there is an assistant message, the start of the kept turn never moves back. */
  lemma TurnStartAdvances(h: seq<Message>, m: Message)
    requires HasAssistant(h)
    ensures HasAssistant(h + [m]) && TurnStart(h) <= TurnStart(h + [m])
  {
    var g, last := h + [m], LastAssistant(h);
    hide IsToolResultOnlyUser, IsAssistant;
    WalkBackAgrees(h, g, last);
    if IsAssistant(m) {
      LastAssistantIs(g, |h|);
      var s := WalkBack(g, |h|);
      if s <= last {
        WalkBackThrough(g, last, |h|);
      }
    } else {
      LastAssistantIs(g, last);
    }
  }

  lemma {:induction false} TurnStartOfLonger(history: seq<Message>, n: nat, k: nat)
    requires n <= k <= |history| && HasAssistant(history[..n])
    ensures HasAssistant(history[..k]) && TurnStart(history[..n]) <= TurnStart(history[..k])
  {
    hide TurnStart, HasAssistant;
    if n < k {
      TurnStartOfLonger(history, n, k - 1);
      assert history[..k] == history[..k - 1] + [history[k - 1]];
      TurnStartAdvances(history[..k - 1], history[k - 1]);
    }
  }

  /** Stripping leaves messages that are not the assistant's as they are. */
  lemma OnlyAssistantsChange(m: Message)
    ensures !IsAssistant(m) ==> StripMessage(m) == m
    ensures StripMessage(m).role == m.role && (InTurn(StripMessage(m)) <==> InTurn(m))
  {
  }

  lemma {:induction false} DropThinkingTwice(blocks: seq<Block>)
    ensures DropThinking(DropThinking(blocks)) == DropThinking(blocks)
  {
    hide IsThinking;
    if blocks != [] {
      var front, last := blocks[..|blocks| - 1], blocks[|blocks| - 1];
      DropThinkingTwice(front);
      assert (DropThinking(front) + [last])[..|DropThinking(front)|] == DropThinking(front);
      assert DropThinking(front) + [] == DropThinking(front);
    }
  }

  lemma StripMessageTwice(m: Message)
    ensures StripMessage(StripMessage(m)) == StripMessage(m)
  {
    if m.content.Blocks? { DropThinkingTwice(m.content.blocks); }
  }

  /**
   * What is sent of a message changes at most once as the history grows: it is sent in full
   * for a while and stripped from then on, and never reverts.
   */
  lemma WireChangesAtMostOnce(history: seq<Message>, replay: Replay, provider: string, i: nat, n: nat, k: nat)
    requires i < n <= k <= |history|
    ensures var early, late := Wire(history[..n], replay, provider)[i], Wire(history[..k], replay, provider)[i];
            && (early == history[i] || early == StripMessage(history[i]))
            && (early != history[i] ==> late == early)
            && (late != StripMessage(history[i]) ==> late == early)
  {
    hide StripMessage, TurnStart, LastAssistant, RequiresReasoningReplay;
    OnlyAssistantsChange(history[i]);
    if IsAssistant(history[i]) {
      assert history[..n][i] == history[i];
      assert HasAssistant(history[..n]);
      TurnStartOfLonger(history, n, k);
    }
  }

  /** Messages that strip alike have their turn start in the same place. */
  lemma TurnStartOfStripped(h: seq<Message>, g: seq<Message>)
    requires |g| == |h| && forall i :: 0 <= i < |h| ==> g[i] == h[i] || g[i] == StripMessage(h[i])
    ensures HasAssistant(g) <==> HasAssistant(h)
    ensures TurnStart(g) == TurnStart(h)
  {
    forall i | 0 <= i < |h|
      ensures (IsAssistant(g[i]) <==> IsAssistant(h[i])) && (InTurn(g[i]) <==> InTurn(h[i]))
    {
      OnlyAssistantsChange(h[i]);
    }
    hide StripMessage, IsAssistant, InTurn;
    if HasAssistant(h) {
      LastAssistantIs(g, LastAssistant(h));
      WalkBackAgrees(h, g, LastAssistant(h));
    }
  }

  /** A message that is stripped before an append is stripped after it, if that changes it at all. */
  lemma StrippedStays(h: seq<Message>, m: Message, replay: Replay, provider: string, i: nat)
    requires i < |h| && i < StripLength(h, replay, provider)
    ensures i < StripLength(h + [m], replay, provider) || StripMessage(h[i]) == h[i]
  {
    OnlyAssistantsChange(h[i]);
    if HasAssistant(h) {
      TurnStartAdvances(h, m);
    } else {
      assert !IsAssistant(h[i]);
    }
  }

  lemma StripLengthOfStripped(h: seq<Message>, g: seq<Message>, replay: Replay, provider: string)
    requires |g| == |h| && forall i :: 0 <= i < |h| ==> g[i] == h[i] || g[i] == StripMessage(h[i])
    ensures StripLength(g, replay, provider) == StripLength(h, replay, provider)
  {
    hide TurnStart, StripMessage, RequiresReasoningReplay;
    TurnStartOfStripped(h, g);
  }

  /**
   * Stripping what was already sent, with a new message appended, sends the same as stripping
   * the full history with that message.
   */
  lemma StripCommutesWithAppend(h: seq<Message>, m: Message, replay: Replay, provider: string)
    ensures Wire(Wire(h, replay, provider) + [m], replay, provider) == Wire(h + [m], replay, provider)
  {
    var w := Wire(h, replay, provider);
    var f, g := h + [m], w + [m];
    hide StripLength, StripMessage;
    StripLengthOfStripped(f, g, replay, provider);
    forall i | 0 <= i < |f|
      ensures Wire(g, replay, provider)[i] == Wire(f, replay, provider)[i]
    {
      StripMessageTwice(f[i]);
      if i < StripLength(h, replay, provider) && i < |h| {
        StrippedStays(h, m, replay, provider, i);
      }
    }
  }

  /** Stripping twice is stripping once. */
  lemma StripTwice(h: seq<Message>, replay: Replay, provider: string)
    ensures Wire(Wire(h, replay, provider), replay, provider) == Wire(h, replay, provider)
  {
    var w := Wire(h, replay, provider);
    TurnStartOfStripped(h, w);
    hide TurnStart, StripMessage, RequiresReasoningReplay;
    forall i | 0 <= i < |h|
      ensures Wire(w, replay, provider)[i] == w[i]
    {
      StripMessageTwice(h[i]);
    }
  }

  // ----- what each mode sends -----

  lemma {:induction false} DroppedAre(blocks: seq<Block>)
    ensures forall b :: b in DropThinking(blocks) <==> b in blocks && b.ty != "thinking" && b.ty != "redacted_thinking"
  {
    if blocks != [] {
      DroppedAre(blocks[..|blocks| - 1]);
      assert blocks == blocks[..|blocks| - 1] + [blocks[|blocks| - 1]];
    }
  }

  /** What is kept stays in order. */
  lemma {:induction false} DroppedInOrder(blocks: seq<Block>, more: seq<Block>)
    ensures DropThinking(blocks + more) == DropThinking(blocks) + DropThinking(more)
  {
    hide IsThinking;
    if more == [] {
      assert blocks + more == blocks;
    } else {
      assert (blocks + more)[..|blocks + more| - 1] == blocks + more[..|more| - 1];
      DroppedInOrder(blocks, more[..|more| - 1]);
    }
  }

  /** The message without its thinking, if it is the assistant's; else as it is. */
  ghost predicate LosesThinking(m: Message, sent: Message) {
    if m.role == "assistant" && m.content.Blocks? then
      && sent == m.(content := sent.content) && sent.content.Blocks?
      && forall b :: b in sent.content.blocks <==>
           b in m.content.blocks && b.ty != "thinking" && b.ty != "redacted_thinking"
    else sent == m
  }

  /** The messages from `start` on are the latest turn: it holds the last message of the assistant. */
  predicate LatestTurnFrom(h: seq<Message>, start: nat) {
    exists last :: 0 <= last < |h| && h[last].role == "assistant" && start <= last
      && (forall i :: last < i < |h| ==> h[i].role != "assistant")
      && (forall i :: start <= i <= last ==> IsTurnStep(h[i])) && (start > 0 ==> !IsTurnStep(h[start - 1]))
  }

  /** An assistant message, or a user message of nothing but at least one tool result. */
  predicate IsTurnStep(m: Message) {
    m.role == "assistant" ||
    (m.role == "user" && m.content.Blocks? && m.content.blocks != [] &&
     forall b :: b in m.content.blocks ==> b.ty == "tool_result")
  }

  /**
   * What is sent of a history in each mode. Where all reasoning is replayed, or the provider
   * needs it, everything; with no replay, every message without its thinking; and otherwise
   * the messages before the latest turn without it, and the turn in full.
   */
  lemma SentByMode(h: seq<Message>, replay: Replay, provider: string)
    ensures var sent, all := Wire(h, replay, provider), provider in {"deepseek", "moonshot", "moonshotai"};
            && (all || replay == All ==> sent == h)
            && (!all && replay == Nothing ==> forall i :: 0 <= i < |h| ==> LosesThinking(h[i], sent[i]))
            && (!all && replay == LastTurn ==>
                  && (forall i :: 0 <= i < TurnStart(h) ==> LosesThinking(h[i], sent[i]))
                  && (forall i :: TurnStart(h) <= i < |h| ==> sent[i] == h[i])
                  && if HasAssistant(h) then LatestTurnFrom(h, TurnStart(h)) else TurnStart(h) == |h|)
  {
    hide TurnStart, IsAssistant, StripMessage, LosesThinking, LatestTurnFrom;
    forall i | 0 <= i < |h| ensures LosesThinking(h[i], StripMessage(h[i])) { StripLosesThinking(h[i]); }
    if HasAssistant(h) { TurnIsLatest(h); }
    if !HasAssistant(h) { assert TurnStart(h) == |h| by { NoTurn(h); } }
    assert StripBefore(h, 0) == h;
  }

  lemma StripLosesThinking(m: Message)
    ensures LosesThinking(m, StripMessage(m))
  {
    if m.content.Blocks? { DroppedAre(m.content.blocks); }
    hide DropThinking;
  }

  lemma NoTurn(h: seq<Message>)
    requires !HasAssistant(h)
    ensures TurnStart(h) == |h|
  {
  }

  lemma TurnIsLatest(h: seq<Message>)
    requires HasAssistant(h)
    ensures LatestTurnFrom(h, TurnStart(h))
  {
    TurnStartIsKept(h);
    var last := LastAssistant(h);
    forall m: Message ensures IsTurnStep(m) <==> InTurn(m) { TurnSteps(m); }
    hide IsTurnStep, InTurn, TurnStart;
  }

  lemma TurnSteps(m: Message)
    ensures IsTurnStep(m) <==> InTurn(m)
  {
    if InTurn(m) && m.role == "user" {
      forall b | b in m.content.blocks ensures b.ty == "tool_result" {
        var i :| 0 <= i < |m.content.blocks| && m.content.blocks[i] == b;
      }
    }
  }
}
