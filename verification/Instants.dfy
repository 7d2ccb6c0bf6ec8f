/** Clock readings are integers, in nanoseconds. */
module Instants {
  const SECOND: int := 1_000_000_000
}
