/** Failure-carrying return types used in place of the source's exceptions
    and its `options[:key] || DEFAULT` lookups. */
module Wrappers {

  /** An optional value: a missing option key is `None`. */
  datatype Option<+T> = None | Some(value: T) {

    /** Ruby's `options[:key] || DEFAULT`: the stored value when the key is
        present, the fallback when it is missing. */
    function OrDefault(fallback: T): T {
      if Some? then value else fallback
    }
  }

  /** Either a computed value or the error the source would have raised. */
  datatype Result<+T, +E> = Success(value: T) | Failure(error: E)
}
