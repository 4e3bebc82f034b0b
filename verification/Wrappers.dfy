/** Optional values and the outcome of a repository operation. */
module Wrappers {

  /** A value that may be absent: an omitted (or null) request field, or a failed search. */
  datatype Option<+T> = None | Some(value: T) {

    /** The value if present, otherwise the given default (a schema default in the request models). */
    function GetOr(default: T): T {
      match this
      case Some(v) => v
      case None => default
    }
  }

  /** Outcome of get, update and delete: the only failure is a missing id (HTTP 404). */
  datatype Result<+T> = Ok(value: T) | NotFound
}
