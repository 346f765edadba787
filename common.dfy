/** Small shared definitions: an optional value and the clock's unit. */
module Common {

  /** Python's `None` or a present value. */
  datatype Option<+T> = None | Some(value: T)

  /** A point in time as read from the clock, in whole seconds. The model
      never parses or prints ISO-8601 text; it only compares instants. */
  type Timestamp = int

  const SecondsPerDay: int := 24 * 60 * 60
}
