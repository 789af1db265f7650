/** Small shared vocabulary: optional values and the kinds of model call. */
module Common {

  datatype Option<+T> = None | Some(value: T) {

    function GetOr(default: T): T {
      match this
      case Some(v) => v
      case None => default
    }

    /** This value if there is one, else the other. */
    function OrElse(other: Option<T>): Option<T> {
      if Some? then this else other
    }
  }

  datatype Result<+T, +E> = Ok(value: T) | Err(error: E)

  /** Why a model call was made. */
  datatype CallType =
    | Message
    | ToolLoop
    | HeartbeatToolLoop
    | Keepalive
    | Heartbeat
    | Compaction
    | Dreaming
    | MemoryQuery
    | Subagent
  {
    /** The name under which the call is stored. */
    function Name(): string {
      match this
      case Message => "message"
      case ToolLoop => "tool_loop"
      case HeartbeatToolLoop => "heartbeat_tool_loop"
      case Keepalive => "keepalive"
      case Heartbeat => "heartbeat"
      case Compaction => "compaction"
      case Dreaming => "dreaming"
      case MemoryQuery => "memory_query"
      case Subagent => "subagent"
    }
  }

  function Min(a: int, b: int): int {
    if a <= b then a else b
  }

  function Max(a: int, b: int): int {
    if a <= b then b else a
  }

  /** Two to the power of `n`. */
  function Pow2(n: nat): (p: nat)
    ensures p >= 1
  {
    if n == 0 then 1 else 2 * Pow2(n - 1)
  }
}
