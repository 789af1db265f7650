/**
 * Removal of orphaned tool calls and tool results from a conversation, which providers
 * would reject.
 */
module Sanitize {
  import opened Common
  import opened Conversation

  /** The two sides of a tool exchange. */
  datatype Side = Use | Result

  /** The id by which a block takes part in an exchange on one side. */
  function IdOn(side: Side, role: string, b: Block): Option<string> {
    match side
    case Use => if role == "assistant" && b.ty == "tool_use" then b.id else None
    case Result => if role == "user" && b.ty == "tool_result" then b.toolUseId else None
  }

  function IdsInBlocks(side: Side, role: string, blocks: seq<Block>): set<string> {
    if blocks == [] then {}
    else
      var id := IdOn(side, role, blocks[|blocks| - 1]);
      IdsInBlocks(side, role, blocks[..|blocks| - 1]) + if id.Some? then {id.value} else {}
  }

  function BlocksOf(m: Message): seq<Block> {
    if m.content.Blocks? then m.content.blocks else []
  }

  /** All ids that occur on one side of a conversation. */
  function Ids(side: Side, messages: seq<Message>): set<string> {
    if messages == [] then {}
    else
      var last := messages[|messages| - 1];
      Ids(side, messages[..|messages| - 1]) + IdsInBlocks(side, last.role, BlocksOf(last))
  }

  /** Every call has a result and every result a call. */
  predicate OrphanFree(messages: seq<Message>) {
    Ids(Use, messages) == Ids(Result, messages)
  }

  // ----- parts of a conversation -----

  /** Which blocks to keep, by message and block number. */
  type Mask = (nat, nat) -> bool

  function Select(blocks: seq<Block>, mask: Mask, i: nat): seq<Block> {
    if blocks == [] then []
    else
      var n := |blocks| - 1;
      Select(blocks[..n], mask, i) + if mask(i, n) then [blocks[n]] else []
  }

  function ApplyTo(m: Message, mask: Mask, i: nat): seq<Message> {
    if m.content.Other? then [m]
    else
      var kept := Select(m.content.blocks, mask, i);
      if kept == [] then [] else [m.(content := Blocks(kept))]
  }

  /** The conversation with only the masked blocks; messages left without blocks disappear. */
  function Apply(messages: seq<Message>, mask: Mask): seq<Message> {
    if messages == [] then []
    else
      var n := |messages| - 1;
      Apply(messages[..n], mask) + ApplyTo(messages[n], mask, n)
  }

  predicate IsBlock(messages: seq<Message>, i: nat, j: nat) {
    i < |messages| && j < |BlocksOf(messages[i])|
  }

  /** A block goes if it is an orphan on its side. */
  predicate Drops(role: string, b: Block, orphanUses: set<string>, orphanResults: set<string>) {
    || (IdOn(Use, role, b).Some? && IdOn(Use, role, b).value in orphanUses)
    || (IdOn(Result, role, b).Some? && IdOn(Result, role, b).value in orphanResults)
  }

  /** The blocks that are no orphans. */
  function KeptMask(messages: seq<Message>): Mask {
    var uses, results := Ids(Use, messages), Ids(Result, messages);
    (i: nat, j: nat) => IsBlock(messages, i, j) &&
                        !Drops(messages[i].role, BlocksOf(messages[i])[j], uses - results, results - uses)
  }

  function Sanitized(messages: seq<Message>): Option<seq<Message>> {
    if OrphanFree(messages) then None else Some(Apply(messages, KeptMask(messages)))
  }

  // ----- the two passes -----

  method CollectIds(side: Side, messages: seq<Message>) returns (ids: set<string>)
    ensures ids == Ids(side, messages)
  {
    hide IdOn;
    ids := {};
    for i := 0 to |messages|
      invariant ids == Ids(side, messages[..i])
    {
      assert messages[..i + 1][..i] == messages[..i];
      if messages[i].content.Other? {
        continue;
      }
      var role, blocks := messages[i].role, messages[i].content.blocks;
      ghost var before := ids;
      for j := 0 to |blocks|
        invariant ids == before + IdsInBlocks(side, role, blocks[..j])
      {
        assert blocks[..j + 1][..j] == blocks[..j];
        var id := IdOn(side, role, blocks[j]);
        if id.Some? {
          ids := ids + {id.value};
        }
      }
      assert blocks[..|blocks|] == blocks;
    }
    assert messages[..|messages|] == messages;
  }

  method KeepBlocks(messages: seq<Message>, i: nat, orphanUses: set<string>, orphanResults: set<string>)
    returns (kept: seq<Block>)
    requires i < |messages| && messages[i].content.Blocks?
    requires orphanUses == Ids(Use, messages) - Ids(Result, messages)
    requires orphanResults == Ids(Result, messages) - Ids(Use, messages)
    ensures kept == Select(messages[i].content.blocks, KeptMask(messages), i)
  {
    hide IdOn, Ids;
    var blocks := messages[i].content.blocks;
    kept := [];
    for j := 0 to |blocks|
      invariant kept == Select(blocks[..j], KeptMask(messages), i)
    {
      assert blocks[..j + 1][..j] == blocks[..j];
      if !Drops(messages[i].role, blocks[j], orphanUses, orphanResults) {
        kept := kept + [blocks[j]];
      }
    }
    assert blocks[..|blocks|] == blocks;
  }

  /** Returns nothing when no block is an orphan, and otherwise the conversation without them. */
  method SanitizeToolPairs(messages: seq<Message>) returns (r: Option<seq<Message>>)
    ensures r == Sanitized(messages)
  {
    var uses := CollectIds(Use, messages);
    var results := CollectIds(Result, messages);
    var orphanUses := uses - results;
    var orphanResults := results - uses;
    if orphanUses == {} && orphanResults == {} {
      assert uses == results by {
        forall x ensures x in uses <==> x in results {
          assert x !in orphanUses && x !in orphanResults;
        }
      }
      return None;
    }
    assert !OrphanFree(messages);
    hide Ids, OrphanFree;
    var out := [];
    for i := 0 to |messages|
      invariant out == Apply(messages[..i], KeptMask(messages))
    {
      assert messages[..i + 1][..i] == messages[..i];
      if messages[i].content.Other? {
        out := out + [messages[i]];
        continue;
      }
      var kept := KeepBlocks(messages, i, orphanUses, orphanResults);
      if kept == [] {
        assert out + [] == out;
        continue;
      }
      out := out + [messages[i].(content := Blocks(kept))];
    }
    assert messages[..|messages|] == messages;
    return Some(out);
  }

  // ----- ids and masks -----

  lemma {:induction false} IdOfSelected(side: Side, role: string, blocks: seq<Block>, mask: Mask, i: nat, j: nat)
    requires j < |blocks| && mask(i, j) && IdOn(side, role, blocks[j]).Some?
    ensures IdOn(side, role, blocks[j]).value in IdsInBlocks(side, role, Select(blocks, mask, i))
  {
    hide IdOn;
    var n := |blocks| - 1;
    var front := Select(blocks[..n], mask, i);
    if j < n { IdOfSelected(side, role, blocks[..n], mask, i, j); }
    assert mask(i, n) ==> (front + [blocks[n]])[..|front|] == front;
    assert front + [] == front;
  }

  lemma {:induction false} SelectedHasId(side: Side, role: string, blocks: seq<Block>, mask: Mask, i: nat, id: string)
      returns (j: nat)
    requires id in IdsInBlocks(side, role, Select(blocks, mask, i))
    ensures j < |blocks| && mask(i, j) && IdOn(side, role, blocks[j]) == Some(id)
  {
    hide IdOn;
    var n := |blocks| - 1;
    var front := Select(blocks[..n], mask, i);
    assert mask(i, n) ==> (front + [blocks[n]])[..|front|] == front;
    assert front + [] == front;
    if id in IdsInBlocks(side, role, front) {
      j := SelectedHasId(side, role, blocks[..n], mask, i, id);
    } else {
      j := n;
    }
  }

  lemma IdsOfApply(side: Side, messages: seq<Message>, mask: Mask)
    requires messages != []
    ensures var n := |messages| - 1;
            Ids(side, Apply(messages, mask)) == Ids(side, Apply(messages[..n], mask))
              + IdsInBlocks(side, messages[n].role, Select(BlocksOf(messages[n]), mask, n))
  {
    hide IdOn;
    var n := |messages| - 1;
    var front, last := Apply(messages[..n], mask), ApplyTo(messages[n], mask, n);
    if last == [] {
      assert front + last == front;
    } else {
      assert (front + last)[..|front|] == front;
    }
  }

  /** A masked block puts its id among those of the part. */
  lemma {:induction false} MaskedIdOccurs(side: Side, messages: seq<Message>, mask: Mask, i: nat, j: nat, id: string)
    requires IsBlock(messages, i, j) && mask(i, j)
    requires IdOn(side, messages[i].role, BlocksOf(messages[i])[j]) == Some(id)
    ensures id in Ids(side, Apply(messages, mask))
  {
    hide IdOn;
    var n := |messages| - 1;
    IdsOfApply(side, messages, mask);
    if i < n {
      var front := messages[..n];
      assert front[i] == messages[i];
      MaskedIdOccurs(side, front, mask, i, j, id);
    } else {
      assert i == n;
      hide Ids, Apply;
      IdOfSelected(side, messages[n].role, BlocksOf(messages[n]), mask, n, j);
    }
  }

  /** Every id of a part comes from a masked block. */
  lemma {:induction false} OccurringIdIsMasked(side: Side, messages: seq<Message>, mask: Mask, id: string)
      returns (i: nat, j: nat)
    requires id in Ids(side, Apply(messages, mask))
    ensures IsBlock(messages, i, j) && mask(i, j)
    ensures IdOn(side, messages[i].role, BlocksOf(messages[i])[j]) == Some(id)
  {
    hide IdOn;
    var n := |messages| - 1;
    IdsOfApply(side, messages, mask);
    if id in Ids(side, Apply(messages[..n], mask)) {
      i, j := OccurringIdIsMasked(side, messages[..n], mask, id);
    } else {
      i := n;
      j := SelectedHasId(side, messages[n].role, BlocksOf(messages[n]), mask, n, id);
    }
  }

  lemma {:induction false} SelectAll(blocks: seq<Block>, mask: Mask, i: nat)
    requires forall j :: 0 <= j < |blocks| ==> mask(i, j)
    ensures Select(blocks, mask, i) == blocks
  {
    if blocks != [] {
      var n := |blocks| - 1;
      SelectAll(blocks[..n], mask, i);
      assert blocks[..n] + [blocks[n]] == blocks;
    }
  }

  /** Ids of the whole conversation, by masking everything. */
  lemma {:induction false} IdsOfWhole(side: Side, messages: seq<Message>)
    ensures Ids(side, Apply(messages, (i, j) => true)) == Ids(side, messages)
  {
    hide IdOn;
    var all: Mask := (i, j) => true;
    if messages != [] {
      var n := |messages| - 1;
      IdsOfWhole(side, messages[..n]);
      IdsOfApply(side, messages, all);
      SelectAll(BlocksOf(messages[n]), all, n);
    }
  }

  lemma PartHasFewerIds(side: Side, messages: seq<Message>, mask: Mask)
    ensures Ids(side, Apply(messages, mask)) <= Ids(side, messages)
  {
    hide Ids, Apply, IdOn;
    forall id | id in Ids(side, Apply(messages, mask))
      ensures id in Ids(side, messages)
    {
      var i, j := OccurringIdIsMasked(side, messages, mask, id);
      MaskedIdOccurs(side, messages, (x, y) => true, i, j, id);
      IdsOfWhole(side, messages);
    }
  }

  /** A block has an id on at most one side. */
  lemma OneSide(role: string, b: Block)
    ensures IdOn(Use, role, b).None? || IdOn(Result, role, b).None?
  {
  }

  // ----- what the result is -----

  /** Sanitizing leaves exactly the ids that occur on both sides. */
  lemma KeptIds(side: Side, messages: seq<Message>)
    ensures Ids(side, Apply(messages, KeptMask(messages))) == Ids(Use, messages) * Ids(Result, messages)
  {
    hide Ids, Apply, IdOn;
    var mask := KeptMask(messages);
    var both := Ids(Use, messages) * Ids(Result, messages);
    PartHasFewerIds(side, messages, mask);
    forall id | id in Ids(side, Apply(messages, mask))
      ensures id in both
    {
      var i, j := OccurringIdIsMasked(side, messages, mask, id);
      assert id in Ids(side, messages);
    }
    forall id | id in both
      ensures id in Ids(side, Apply(messages, mask))
    {
      IdsOfWhole(side, messages);
      var i, j := OccurringIdIsMasked(side, messages, (x, y) => true, id);
      OneSide(messages[i].role, BlocksOf(messages[i])[j]);
      MaskedIdOccurs(side, messages, mask, i, j, id);
    }
  }

  /**
   * Sanitizing yields the greatest orphan-free part of the conversation: it has no orphans,
   * and every part without orphans, however its blocks were chosen, lies within it.
   */
  lemma SanitizedIsGreatest(messages: seq<Message>)
    ensures OrphanFree(Apply(messages, KeptMask(messages)))
    ensures forall mask: Mask, i, j :: OrphanFree(Apply(messages, mask)) && IsBlock(messages, i, j) && mask(i, j)
              ==> KeptMask(messages)(i, j)
  {
    KeptIds(Use, messages);
    KeptIds(Result, messages);
    hide Ids, Apply, IdOn;
    forall mask: Mask, i, j | OrphanFree(Apply(messages, mask)) && IsBlock(messages, i, j) && mask(i, j)
      ensures KeptMask(messages)(i, j)
    {
      NoOrphanIsDropped(messages, mask, i, j);
    }
  }

  lemma NoOrphanIsDropped(messages: seq<Message>, mask: Mask, i: nat, j: nat)
    requires OrphanFree(Apply(messages, mask)) && IsBlock(messages, i, j) && mask(i, j)
    ensures KeptMask(messages)(i, j)
  {
    hide Ids, Apply, IdOn;
    var role, b := messages[i].role, BlocksOf(messages[i])[j];
    PartHasFewerIds(Use, messages, mask);
    PartHasFewerIds(Result, messages, mask);
    if IdOn(Use, role, b).Some? { MaskedIdOccurs(Use, messages, mask, i, j, IdOn(Use, role, b).value); }
    if IdOn(Result, role, b).Some? { MaskedIdOccurs(Result, messages, mask, i, j, IdOn(Result, role, b).value); }
  }

  /** Blocks that take no part in a tool exchange are never dropped. */
  lemma OtherBlocksStay(messages: seq<Message>, i: nat, j: nat)
    requires IsBlock(messages, i, j)
    requires forall side :: IdOn(side, messages[i].role, BlocksOf(messages[i])[j]).None?
    ensures KeptMask(messages)(i, j)
  {
  }

  /** A sanitized conversation needs no further sanitizing. */
  lemma SanitizedOnce(messages: seq<Message>)
    requires Sanitized(messages).Some?
    ensures Sanitized(Sanitized(messages).value).None?
  {
    SanitizedIsGreatest(messages);
  }

  // ----- which messages are left -----

  /** What is left of the message at `i`. */
  function Remainder(messages: seq<Message>, i: nat): seq<Message>
    requires i < |messages|
  {
    if OrphanFree(messages) then [messages[i]] else ApplyTo(messages[i], KeptMask(messages), i)
  }

  function Remainders(messages: seq<Message>, n: nat): seq<Message>
    requires n <= |messages|
  {
    if n == 0 then [] else Remainders(messages, n - 1) + Remainder(messages, n - 1)
  }

  lemma {:induction false} RemaindersAre(messages: seq<Message>, n: nat)
    requires n <= |messages|
    ensures Remainders(messages, n) ==
            if OrphanFree(messages) then messages[..n] else Apply(messages[..n], KeptMask(messages))
  {
    hide OrphanFree, KeptMask;
    if n > 0 {
      RemaindersAre(messages, n - 1);
      assert messages[..n][..n - 1] == messages[..n - 1];
    }
  }

  lemma {:induction false} SelectsSome(blocks: seq<Block>, mask: Mask, i: nat)
    ensures Select(blocks, mask, i) != [] <==> exists j: nat :: j < |blocks| && mask(i, j)
  {
    if blocks != [] {
      var n := |blocks| - 1;
      SelectsSome(blocks[..n], mask, i);
      assert mask(i, n) ==> n < |blocks|;
    }
  }

  /**
   * The conversation that goes out is what is left of its messages, in order. While there is
   * an orphan, something is left of a message exactly if it is not an array of blocks or one
   * of its blocks is kept; so a message that was empty before goes exactly then.
   */
  lemma MessageSurvives(messages: seq<Message>, i: nat)
    requires i < |messages|
    ensures Sanitized(messages).GetOr(messages) == Remainders(messages, |messages|)
    ensures Remainder(messages, i) != [] <==>
            || OrphanFree(messages) || messages[i].content.Other?
            || exists j: nat :: IsBlock(messages, i, j) && KeptMask(messages)(i, j)
    ensures messages[i].content == Blocks([]) ==> (Remainder(messages, i) == [] <==> !OrphanFree(messages))
  {
    RemaindersAre(messages, |messages|);
    assert messages[..|messages|] == messages;
    SelectsSome(BlocksOf(messages[i]), KeptMask(messages), i);
    hide OrphanFree, KeptMask, Apply, Remainders, Select;
  }

  // ----- what takes part in an exchange -----

  lemma {:induction false} IdsInBlocksAre(side: Side, role: string, blocks: seq<Block>, id: string)
    ensures id in IdsInBlocks(side, role, blocks) <==>
            exists j :: 0 <= j < |blocks| && IdOn(side, role, blocks[j]) == Some(id)
  {
    hide IdOn;
    if blocks != [] {
      var n := |blocks| - 1;
      IdsInBlocksAre(side, role, blocks[..n], id);
      if j :| 0 <= j < |blocks| && IdOn(side, role, blocks[j]) == Some(id) {
        assert j < n ==> blocks[..n][j] == blocks[j];
      }
    }
  }

  /** The assistant calls a tool under this id. */
  predicate CallsAs(m: Message, id: string) {
    && m.role == "assistant"
    && exists b :: b in BlocksOf(m) && b.ty == "tool_use" && b.id == Some(id)
  }

  /** The user message has a tool's result for this id. */
  predicate AnswersTo(m: Message, id: string) {
    && m.role == "user"
    && exists b :: b in BlocksOf(m) && b.ty == "tool_result" && b.toolUseId == Some(id)
  }

  predicate IsCalled(messages: seq<Message>, id: string) {
    exists m :: m in messages && CallsAs(m, id)
  }

  predicate IsAnswered(messages: seq<Message>, id: string) {
    exists m :: m in messages && AnswersTo(m, id)
  }

  /** Only the assistant's calls and the user's results count, and the two are matched by the call's id. */
  lemma {:induction false} ExchangeIds(messages: seq<Message>, id: string)
    ensures id in Ids(Use, messages) <==> IsCalled(messages, id)
    ensures id in Ids(Result, messages) <==> IsAnswered(messages, id)
  {
    if messages != [] {
      var front, last := messages[..|messages| - 1], messages[|messages| - 1];
      ExchangeIds(front, id);
      IdsInMessage(last, id);
      assert forall m :: m in messages <==> m in front || m == last;
      hide CallsAs, AnswersTo, IdsInBlocks;
    }
  }

  lemma IdsInMessage(m: Message, id: string)
    ensures id in IdsInBlocks(Use, m.role, BlocksOf(m)) <==> CallsAs(m, id)
    ensures id in IdsInBlocks(Result, m.role, BlocksOf(m)) <==> AnswersTo(m, id)
  {
    var blocks := BlocksOf(m);
    IdsInBlocksAre(Use, m.role, blocks, id);
    IdsInBlocksAre(Result, m.role, blocks, id);
    hide IdsInBlocks;
    if CallsAs(m, id) {
      var b :| b in blocks && b.ty == "tool_use" && b.id == Some(id);
      var j :| 0 <= j < |blocks| && blocks[j] == b;
    }
    if AnswersTo(m, id) {
      var b :| b in blocks && b.ty == "tool_result" && b.toolUseId == Some(id);
      var j :| 0 <= j < |blocks| && blocks[j] == b;
    }
  }
}
