/** Small shared vocabulary: optional values, results, and the scalar types of the records. */
module Support {

  datatype Option<+T> = None | Some(value: T) {
    /** The value, or `default` when there is none. */
    function GetOr(default: T): T
    {
      if Some? then value else default
    }
  }

  datatype Result<+T, +E> = Ok(value: T) | Err(error: E)

  /** The integer primary key of a stored row (auto-increment, starting at 1). */
  type Id = nat

  /** A record's externally visible unique identifier; the random 128-bit UUID is
      abstracted to a value drawn from a supply that never repeats. */
  type Guid = nat

  /** A point on the store's abstract, monotone clock. */
  type Timestamp = nat
}
