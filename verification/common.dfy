/** What several models share: optional values and clock constants. A clock
    reading is a whole number of nanoseconds. */
module Common {

  datatype Option<+T> = None | Some(value: T)

  const SECOND := 1_000_000_000
  const MINUTE := 60 * SECOND

  /** A clock reading that is not earlier than either of the two. */
  function Later(a: int, b: int): int {
    if a < b then b else a
  }
}
