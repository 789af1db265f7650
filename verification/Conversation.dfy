/** Messages of a conversation as they go out to a provider. */
module Conversation {
  import opened Common

  /** A content block. A missing type reads as the empty string; `body` is everything else. */
  datatype Block = Block(ty: string, id: Option<string>, toolUseId: Option<string>, body: string)

  /** An array of blocks, or anything else: plain text or nothing. */
  datatype Content = Blocks(blocks: seq<Block>) | Other(raw: string)

  datatype Message = Message(role: string, content: Content)
}
