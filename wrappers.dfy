/** The optional value used wherever the server reads something that may be absent. */
module Wrappers {

  datatype Option<+T> = None | Some(value: T) {

    /** The value, or `default` when there is none: JavaScript's `x || default` for a present-or-absent `x`. */
    function GetOr(default: T): T {
      if Some? then value else default
    }
  }

  function Min(a: nat, b: nat): nat {
    if a <= b then a else b
  }
}
