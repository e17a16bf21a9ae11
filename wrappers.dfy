/** Optional values (JavaScript's undefined/null) and thrown errors. */
module Wrappers {

  /** `None` stands for a value that is undefined or null. */
  datatype Option<+T> = None | Some(value: T) {
    /** The `??` operator: the value if present, otherwise `default`. */
    function GetOr(default: T): T {
      match this
      case Some(v) => v
      case None => default
    }
  }

  /**
   * JavaScript truthiness of an optional string, and class-validator's
   * IsNotEmpty: neither undefined, null nor the empty string.
   */
  predicate Truthy(s: Option<string>) {
    s.Some? && s.value != ""
  }

  /** `Failure` stands for an Error thrown to the caller. */
  datatype Result<+R, +E> = Success(value: R) | Failure(error: E)
}
