/** The optional value used for pandas' NaN fill after a left join and for SQL NULL. */
module Wrappers {

  datatype Option<+T> = None | Some(value: T) {

    /** The value, or `default` when absent (SQL COALESCE, pandas fillna). */
    function GetOr(default: T): T {
      match this
      case Some(v) => v
      case None => default
    }
  }
}
