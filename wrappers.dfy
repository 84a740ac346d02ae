/** Optional values: JavaScript's `null` / `undefined` next to a real value. */
module Wrappers {

  datatype Option<+T> = None | Some(value: T) {

    /** The value, or `default` when there is none (the `??` operator). */
    function GetOr(default: T): T {
      match this
      case Some(v) => v
      case None => default
    }
  }

  /**
   * What a backend query hands back: an error, or data that may still be
   * `null` (`{ data, error }` of the data client).
   */
  datatype QueryResult<+T> = QueryError | QueryData(data: Option<T>)
}
