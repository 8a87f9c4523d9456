/** Small shared datatypes, ids and arithmetic. */
module Wrappers {

  datatype Option<+T> = None | Some(value: T)

  datatype Result<+T, +E> = Ok(value: T) | Err(error: E)

  datatype ConversationId = ConversationId(value: nat)

  datatype UserId = UserId(value: nat)

  /** One live connection, unique for the lifetime of the process. */
  datatype ConnectionId = ConnectionId(value: nat)

  const U64_MAX: nat := 0xFFFF_FFFF_FFFF_FFFF

  function Max(a: int, b: int): int {
    if a < b then b else a
  }

  function Min(a: int, b: int): int {
    if a < b then a else b
  }

  function Clamp(value: int, low: int, high: int): int
    requires low <= high
  {
    Min(Max(value, low), high)
  }
}
