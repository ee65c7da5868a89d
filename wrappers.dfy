/** Option and Result, used for nullable fields, lookups and the
    "exception with message" outcome of a store call or a port call. */
module Wrappers {

  datatype Option<+T> = None | Some(value: T) {

    /** The value, or `default` when there is none. */
    function GetOr(default: T): T {
      match this
      case Some(v) => v
      case None => default
    }
  }

  /** `Err(message)` stands for a raised exception whose `str()` is `message`. */
  datatype Result<+T, +E> = Ok(value: T) | Err(error: E)
}

/** Wall-clock readings (`datetime.utcnow()`) are opaque values. */
module Timestamps {

  type Time = int

  /** The clock: the reading taken for the n-th store call. */
  type Clock = nat -> Time
}
