/** What several modules share: optional values and the unit of time. */
module Wrappers {

  datatype Option<+T> = None | Some(value: T)

  /** Clock readings are in nanoseconds. */
  const SECOND: nat := 1_000_000_000
}
