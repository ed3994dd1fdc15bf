/** Names shared by the models. */
module Basics {

  datatype Option<+T> = None | Some(value: T)

  /** Queues, workers and their reports are named by keys. */
  type Key = string

  function Min(a: int, b: int): int {
    if a < b then a else b
  }

  function Max(a: int, b: int): int {
    if a < b then b else a
  }
}
