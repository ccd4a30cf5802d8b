/** The optional value used for every JavaScript value that may be `null`,
    `undefined` or `NaN` in the command-line tool. */
module Wrappers {

  datatype Option<+T> = None | Some(value: T) {

    /** Returns the value in Some, or `default` when there is none. */
    function GetOr(default: T): T {
      match this
      case Some(v) => v
      case None => default
    }
  }
}
